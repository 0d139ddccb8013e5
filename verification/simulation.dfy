/** The parts of main.py's simulation loop that are not user interface: the
    fleet it launches, the cadence at which it moves the customers, the
    delivery pass after every consensus round, and the rule that ends a run. */
module Simulation {
  import opened Geometry
  import opened Wrappers
  import opened Knowledge
  import opened Agents
  import opened Consensus
  import opened World

  // ---------------------------------------------------------------------------
  // The fleet

  /** `range(5)` agents. */
  const FleetSize := 5
  /** Agent `i` starts at `(i * 4, i * 4)`. */
  const LaunchSpacing := 4

  /** `[Agent(i, (i*4, i*4), is_byzantine=(i == 0)) for i in range(5)]` and
      `Consensus(agents)`: `drainRates[i]` is agent `i`'s draw of its battery
      drain rate. Only agent 0 is Byzantine, and the agents are distinct
      objects. */
  method Launch(drainRates: seq<real>) returns (fleet: seq<Agent>, consensus: Consensus)
    requires |drainRates| == FleetSize
    requires forall i :: 0 <= i < FleetSize ==> 0.08 <= drainRates[i] <= 0.12
    ensures |fleet| == FleetSize && consensus.agents == fleet && consensus.Valid()
    ensures forall i :: 0 <= i < FleetSize ==>
              && fresh(fleet[i]) && fleet[i].Valid()
              && fleet[i].id == i && fleet[i].pos == Pos(i * LaunchSpacing, i * LaunchSpacing)
              && fleet[i].isByzantine == (i == 0) && fleet[i].batteryDrainRate == drainRates[i]
              && fleet[i].knowledge == Empty && fleet[i].step == 0 && fleet[i].messageCooldown == 0
  {
    fleet := [];
    var i := 0;
    while i < FleetSize
      invariant 0 <= i <= FleetSize && |fleet| == i
      invariant Distinct(fleet)
      invariant forall l :: 0 <= l < i ==>
                  && fresh(fleet[l]) && fleet[l].Valid()
                  && fleet[l].id == l && fleet[l].pos == Pos(l * LaunchSpacing, l * LaunchSpacing)
                  && fleet[l].isByzantine == (l == 0) && fleet[l].batteryDrainRate == drainRates[l]
                  && fleet[l].knowledge == Empty && fleet[l].step == 0 && fleet[l].messageCooldown == 0
    {
      var agent := new Agent(i, Pos(i * LaunchSpacing, i * LaunchSpacing), i == 0, drainRates[i]);
      fleet := fleet + [agent];
      i := i + 1;
    }
    consensus := new Consensus(fleet);
  }

  // ---------------------------------------------------------------------------
  // Moving the customers

  /** `if step % 5 == 0: env.move_customers()` */
  const CustomerPeriod := 5

  /** How many times the loop has called `move_customers` before tick `step`:
      once for every multiple of five below it. */
  function CallsBefore(step: nat): (r: nat)
    ensures r * CustomerPeriod >= step && r * CustomerPeriod < step + CustomerPeriod
  {
    (step + CustomerPeriod - 1) / CustomerPeriod
  }

  /** The loop calls `move_customers` on every fifth tick and the environment
      jitters on every fifth call, so the customers move exactly on ticks
      that are multiples of 25. */
  lemma JitterCadence(step: nat)
    ensures CallsBefore(step + 1) == CallsBefore(step) + (if step % CustomerPeriod == 0 then 1 else 0)
    ensures step % CustomerPeriod == 0 && CallsBefore(step) % JitterPeriod == 0 <==>
            step % (CustomerPeriod * JitterPeriod) == 0
  {
    var q, r := step / CustomerPeriod, step % CustomerPeriod;
    assert step == q * CustomerPeriod + r;
    if r == 0 {
      assert CallsBefore(step) == q;
      assert CallsBefore(step + 1) == q + 1;
      assert step == (q / JitterPeriod) * 25 + (q % JitterPeriod) * CustomerPeriod;
    } else {
      assert CallsBefore(step) == q + 1;
      assert CallsBefore(step + 1) == q + 1;
      assert step % 25 == (q % JitterPeriod) * CustomerPeriod + r;
    }
  }

  /** Lines 76-77 at tick `step`, on an environment that has seen one
      `move_customers` call per earlier multiple of five: the customers
      jitter exactly when `step` is a multiple of 25. */
  method MoveWorld(env: Environment, step: nat, jitter: nat -> (int, int))
    requires env.Valid() && env.stepCount == CallsBefore(step)
    requires forall i :: -1 <= jitter(i).0 <= 1 && -1 <= jitter(i).1 <= 1
    modifies env
    ensures env.Valid() && env.stepCount == CallsBefore(step + 1)
    ensures env.customers ==
      if step % (CustomerPeriod * JitterPeriod) == 0 then Jittered(old(env.customers), jitter, env.size)
      else old(env.customers)
  {
    JitterCadence(step);
    if step % CustomerPeriod == 0 {
      env.MoveCustomers(jitter);
    }
  }

  // ---------------------------------------------------------------------------
  // Deliveries

  /** The lowest index of a customer at `p`, if there is one. */
  function FirstAt(cs: seq<Pos>, p: Pos): (r: Option<nat>)
    ensures r.Some? ==> r.value < |cs| && cs[r.value] == p && p !in cs[..r.value]
    ensures r.None? <==> p !in cs
  {
    if cs == [] then None
    else if cs[0] == p then Some(0)
    else
      var rest := FirstAt(cs[1..], p);
      assert cs == [cs[0]] + cs[1..];
      if rest.Some? then
        assert cs[..rest.value + 1] == [cs[0]] + cs[1..][..rest.value];
        Some(rest.value + 1)
      else None
  }

  /** One agent's turn of the delivery pass: the first customer standing on
      the agent's position `p`, if any, is popped. */
  function DeliverTo(cs: seq<Pos>, p: Pos): (r: seq<Pos>)
    ensures |r| == |cs| - (if p in cs then 1 else 0)
  {
    match FirstAt(cs, p)
    case None => cs
    case Some(i) =>
      assert cs == cs[..i] + [p] + cs[i + 1..];
      cs[..i] + cs[i + 1..]
  }

  /** An agent removes at most one customer, one standing exactly on it, and
      the first such in the list; the others keep their order. */
  lemma DeliverOne(cs: seq<Pos>, p: Pos)
    ensures p !in cs ==> DeliverTo(cs, p) == cs
    ensures p in cs ==> exists i :: 0 <= i < |cs| && cs[i] == p && p !in cs[..i] &&
                          DeliverTo(cs, p) == cs[..i] + cs[i + 1..]
    ensures |DeliverTo(cs, p)| == |cs| - (if p in cs then 1 else 0)
    ensures multiset(DeliverTo(cs, p)) + (if p in cs then multiset{p} else multiset{}) == multiset(cs)
  {
    var r := FirstAt(cs, p);
    if r.Some? {
      var i := r.value;
      assert cs == cs[..i] + [p] + cs[i + 1..];
    }
  }

  /** A second agent on the same customer finds nothing left to collect
      there when the customer was the only one at that spot. */
  lemma DeliverOnce(cs: seq<Pos>, p: Pos)
    requires multiset(cs)[p] <= 1
    ensures DeliverTo(DeliverTo(cs, p), p) == DeliverTo(cs, p)
  {
    DeliverOne(cs, p);
    var r := DeliverTo(cs, p);
    assert multiset(r)[p] == 0;
    assert p !in r;
    DeliverOne(r, p);
  }

  /** The customers left after agents `0 .. n-1`, at `ps`, have taken their
      turns. */
  function DeliverUpTo(cs: seq<Pos>, ps: seq<Pos>, n: nat): (r: seq<Pos>)
    requires n <= |ps|
    ensures |r| <= |cs|
  {
    if n == 0 then cs else DeliverTo(DeliverUpTo(cs, ps, n - 1), ps[n - 1])
  }

  /** A delivery pass removes at most one customer per agent. */
  lemma {:induction false} DeliverCount(cs: seq<Pos>, ps: seq<Pos>, n: nat)
    requires n <= |ps|
    ensures |cs| - n <= |DeliverUpTo(cs, ps, n)| <= |cs|
  {
    if n > 0 {
      DeliverCount(cs, ps, n - 1);
      DeliverOne(DeliverUpTo(cs, ps, n - 1), ps[n - 1]);
    }
  }

  /** A delivery pass removes only customers standing on some agent. */
  lemma {:induction false} DeliverRemoved(cs: seq<Pos>, ps: seq<Pos>, n: nat)
    requires n <= |ps|
    ensures multiset(DeliverUpTo(cs, ps, n)) <= multiset(cs)
    ensures forall c :: c in multiset(cs) - multiset(DeliverUpTo(cs, ps, n)) ==> c in ps[..n]
  {
    if n > 0 {
      var prev, p := DeliverUpTo(cs, ps, n - 1), ps[n - 1];
      DeliverRemoved(cs, ps, n - 1);
      DeliverOne(prev, p);
      assert ps[..n] == ps[..n - 1] + [p];
      RemovedStep(multiset(cs), multiset(prev), multiset(DeliverTo(prev, p)),
                  if p in prev then multiset{p} else multiset{}, p, ps[..n - 1]);
    }
  }

  /** One turn keeps the removed customers among the agents' positions: it
      takes away nothing, or one customer at the new agent's position `p`. */
  lemma RemovedStep(start: multiset<Pos>, before: multiset<Pos>, after: multiset<Pos>, taken: multiset<Pos>,
                    p: Pos, front: seq<Pos>)
    requires before <= start && forall c :: c in start - before ==> c in front
    requires after + taken == before && (taken == multiset{} || taken == multiset{p})
    ensures after <= start
    ensures forall c :: c in start - after ==> c in front + [p]
  {
    forall c | c in start - after
      ensures c in front + [p]
    {
      if c != p {
        assert after[c] == before[c];
        assert c in start - before;
      }
    }
  }

  /** Agent `agent`'s turn of the delivery pass (lines 99-104); `hit` tells
      whether it popped a customer. */
  method DeliverFor(env: Environment, agent: Agent) returns (hit: bool)
    requires env.Valid()
    modifies env`customers
    ensures env.Valid()
    ensures env.customers == DeliverTo(old(env.customers), agent.pos)
    ensures hit <==> agent.pos in old(env.customers)
    ensures |env.customers| == |old(env.customers)| - (if hit then 1 else 0)
  {
    hit := false;
    var i := 0;
    while i < |env.customers|
      invariant i <= |env.customers| == |old(env.customers)|
      invariant env.customers == old(env.customers) && agent.pos !in env.customers[..i]
    {
      if env.customers[i] == agent.pos {
        assert FirstAt(env.customers, agent.pos) == Some(i);
        env.customers := env.customers[..i] + env.customers[i + 1..];
        hit := true;
        break;
      }
      assert env.customers[..i + 1] == env.customers[..i] + [env.customers[i]];
      i := i + 1;
    }
    if !hit {
      assert env.customers[..i] == env.customers;
    }
  }

  /** The delivery pass of lines 98-104 after a consensus round: every
      agent in list order pops the first customer at its position, and
      `delivered` counts the pops. */
  method Deliver(env: Environment, agents: seq<Agent>, delivered: nat) returns (count: nat)
    requires env.Valid()
    modifies env`customers
    ensures env.Valid()
    ensures env.customers == DeliverUpTo(old(env.customers), Positions(agents), |agents|)
    ensures count + |env.customers| == delivered + |old(env.customers)|
  {
    ghost var ps := Positions(agents);
    count := delivered;
    var k := 0;
    while k < |agents|
      invariant k <= |agents| && env.Valid()
      invariant env.customers == DeliverUpTo(old(env.customers), ps, k)
      invariant count + |env.customers| == delivered + |old(env.customers)|
    {
      var hit := DeliverFor(env, agents[k]);
      if hit {
        count := count + 1;
      }
      k := k + 1;
    }
  }

  // ---------------------------------------------------------------------------
  // The end of a run

  /** A run lasts at most this many ticks. */
  const MaxSteps := 100

  /** `step >= 100 or len(env.customers) == 0`, checked after `step` has
      been advanced. */
  predicate Finished(step: nat, remaining: nat)
  {
    step >= MaxSteps || remaining == 0
  }

  /** The tick on which a run ends, when `remaining(s)` customers are left
      after tick `s`: the first tick that finishes it, never after the
      hundredth. */
  method RunLength(remaining: nat -> nat) returns (steps: nat)
    ensures 1 <= steps <= MaxSteps
    ensures Finished(steps, remaining(steps))
    ensures forall s :: 1 <= s < steps ==> !Finished(s, remaining(s))
  {
    steps := 1;
    while !Finished(steps, remaining(steps))
      invariant 1 <= steps <= MaxSteps
      invariant forall s :: 1 <= s < steps ==> !Finished(s, remaining(s))
      decreases MaxSteps - steps
    {
      steps := steps + 1;
    }
  }
}
