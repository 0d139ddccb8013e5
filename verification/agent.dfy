/** One drone of agent.py: its position, battery, knowledge of customers, the
    expanding square-spiral search, the heading it turns gradually, and its
    honest or Byzantine sensing. Every random draw of agent.py is a
    parameter of the method that draws it. */
module Agents {
  import opened Wrappers
  import opened Geometry
  import opened Knowledge
  import opened World

  /** A customer is sensed when its Euclidean distance is at most 3. */
  const SensingRangeSq := 9
  /** Degrees the heading may turn per tick. */
  const TurningRate := 15.0
  /** A Byzantine offset is drawn from `[-5, 5]` per axis. */
  const DistortionLimit := 5
  const LieProbability := 0.7
  /** Chance per tick that a Byzantine agent walks at random. */
  const ErraticProbability := 0.1
  /** Chance per tick of jitter on the target-seeking movement vector. */
  const JitterProbability := 0.1
  /** Below this battery level a report fails with probability 0.3. */
  const LowBattery := 20.0
  const ReportFailureProbability := 0.3
  /** Ticks for which a sensing message is shown. */
  const MessageTicks := 5
  /** Length of the position history. */
  const HistoryLength := 20

  /** `spiral_directions[d]`, the `(dx, dy)` step for direction `d`. */
  function SpiralStep(d: int): (r: (int, int))
    requires 0 <= d < 4
    ensures -1 <= r.0 <= 1 && -1 <= r.1 <= 1 && (r.0 == 0) != (r.1 == 0)
  {
    [(0, 1), (1, 0), (0, -1), (-1, 0)][d]
  }

  /** `target_rotations[d]`, the cardinal heading for direction `d`. */
  function CardinalHeading(d: int): (r: real)
    requires 0 <= d < 4
    ensures 0.0 <= r < 360.0
  {
    [0.0, 90.0, 180.0, 270.0][d]
  }

  /** The clamped position one spiral step away in direction `d`. */
  function Advance(p: Pos, d: int, size: int): (r: Pos)
    requires 0 <= d < 4 && size >= 1
    ensures InGrid(r, size)
    ensures InGrid(p, size) ==> -1 <= r.x - p.x <= 1 && -1 <= r.y - p.y <= 1
  {
    var (dx, dy) := SpiralStep(d);
    ClampPos(p.x + dx, p.y + dy, size)
  }

  /** The direction a spiral step is taken in: the current one, or the next
      one when the clamp leaves the position unchanged. */
  function Redirected(p: Pos, d: int, size: int): (r: int)
    requires 0 <= d < 4 && size >= 1
    ensures 0 <= r < 4
    ensures r != d <==> Advance(p, d, size) == p
  {
    if Advance(p, d, size) == p then NextDirection(d) else d
  }

  /** `(d + 1) % 4` for a direction index `d`. */
  function NextDirection(d: int): (r: int)
    requires 0 <= d < 4
    ensures 0 <= r < 4 && r == (d + 1) % 4
  {
    if d == 3 then 0 else d + 1
  }

  /** The spiral bookkeeping invariant: a cardinal direction, and an arm
      length of `1 + turns / 2` with the steps taken on the current arm below it. */
  predicate SpiralInvariant(direction: int, length: int, steps: int, turns: int)
  {
    && 0 <= direction < 4
    && 1 <= length
    && 2 * (length - 1) <= turns <= 2 * (length - 1) + 1
    && 0 <= steps < length
  }

  /** The invariant pins the arm length to the turn count. */
  lemma ArmLength(direction: int, length: int, steps: int, turns: int)
    requires SpiralInvariant(direction, length, steps, turns)
    ensures length == 1 + turns / 2
  {
  }

  /** `angle_diff`: the signed turn from `rotation` to `target`, in `[-180, 180)`. */
  function AngleDiff(target: real, rotation: real): (r: real)
    ensures -180.0 <= r < 180.0
  {
    Mod360(target - rotation + 180.0) - 180.0
  }

  /** The gradual turning rule shared by spiral search and target seeking: turn
      by `TurningRate` toward the target the short way round, or snap to it
      when it is within one turning step. */
  function Turn(rotation: real, target: real): (r: real)
    ensures 0.0 <= target < 360.0 ==> 0.0 <= r < 360.0
  {
    var diff := AngleDiff(target, rotation);
    if diff > TurningRate || diff < -TurningRate then
      if diff > 0.0 then Mod360(rotation + TurningRate) else Mod360(rotation - TurningRate)
    else target
  }

  /** The heading stays in `[0, 360)`; it reaches the target exactly when the
      target is within one turning step, and otherwise closes the signed gap
      by exactly `TurningRate`. */
  lemma {:induction false} TurnCloses(rotation: real, target: real)
    requires 0.0 <= target < 360.0
    ensures 0.0 <= Turn(rotation, target) < 360.0
    ensures -TurningRate <= AngleDiff(target, rotation) <= TurningRate ==> Turn(rotation, target) == target
    ensures AngleDiff(target, rotation) > TurningRate ==>
      AngleDiff(target, Turn(rotation, target)) == AngleDiff(target, rotation) - TurningRate
    ensures AngleDiff(target, rotation) < -TurningRate ==>
      AngleDiff(target, Turn(rotation, target)) == AngleDiff(target, rotation) + TurningRate
  {
    var diff := AngleDiff(target, rotation);
    var a := target - rotation + 180.0;
    var m := (a / 360.0).Floor;
    assert Mod360(a) == a - 360.0 * m as real;
    assert diff == a - 360.0 * m as real - 180.0;
    if diff > TurningRate || diff < -TurningRate {
      var step := if diff > 0.0 then TurningRate else -TurningRate;
      var b := rotation + step;
      var n := (b / 360.0).Floor;
      var turned := Mod360(b);
      assert turned == b - 360.0 * n as real;
      assert turned == Turn(rotation, target);
      // target - turned + 180 == (diff + 180 - step) + 360 * (m + n)
      assert target - turned + 180.0 == (diff + 180.0 - step) + 360.0 * (m + n) as real;
      Mod360Shift(diff + 180.0 - step, m + n);
      Mod360Identity(diff + 180.0 - step);
    }
  }

  /** The bearing from `p` to `q` in `[0, 360)`: `degrees(atan2(dy, dx))`, with
      360 added when negative. `atan2Degrees(dy, dx)` stands for
      `math.degrees(math.atan2(dy, dx))`. */
  function Bearing(p: Pos, q: Pos, atan2Degrees: (int, int) -> real): (r: real)
    requires forall dy, dx :: -180.0 <= atan2Degrees(dy, dx) <= 180.0
    ensures 0.0 <= r < 360.0
  {
    var a := atan2Degrees(q.y - p.y, q.x - p.x);
    if a < 0.0 then a + 360.0 else a
  }

  /** `int(p + move)` per axis, clamped to the grid. */
  function Stepped(p: Pos, moveDx: real, moveDy: real, size: int): (r: Pos)
    requires size >= 1
    ensures InGrid(r, size)
  {
    ClampPos(Trunc(p.x as real + moveDx), Trunc(p.y as real + moveDy), size)
  }

  /** The coordinate an agent records for a sensed customer at `c`. An honest
      agent records `c`; a Byzantine one records `c` shifted by `offset` and
      clamped when its lie roll is below `LieProbability`, and `c` otherwise. */
  function Reading(c: Pos, byzantine: bool, lieRoll: real, offset: (int, int), size: int): (r: Pos)
    requires size >= 1
    ensures !byzantine ==> r == c
    ensures lieRoll >= LieProbability ==> r == c
    ensures InGrid(c, size) && -DistortionLimit <= offset.0 <= DistortionLimit
            && -DistortionLimit <= offset.1 <= DistortionLimit ==>
              && InGrid(r, size)
              && -DistortionLimit <= r.x - c.x <= DistortionLimit
              && -DistortionLimit <= r.y - c.y <= DistortionLimit
  {
    if !byzantine then c
    else if lieRoll < LieProbability then
      ClampNear(c.x, offset.0, DistortionLimit, size);
      ClampNear(c.y, offset.1, DistortionLimit, size);
      ClampPos(c.x + offset.0, c.y + offset.1, size)
    else c
  }

  predicate InRange(c: Pos, p: Pos)
  {
    DistSq(c, p) <= SensingRangeSq
  }

  /** Customer `c` is among the first `n` and within sensing range of `p`. */
  predicate Sighted(cs: seq<Pos>, p: Pos, n: nat, c: nat)
    requires n <= |cs|
  {
    c < n && InRange(cs[c], p)
  }

  /** Knowledge after sensing the first `n` customers from `p`. */
  function SensedUpTo(k: Dict, p: Pos, cs: seq<Pos>, n: nat, byzantine: bool,
                      lieRoll: nat -> real, offset: nat -> (int, int), size: int): (r: Dict)
    requires k.Valid() && n <= |cs| && size >= 1
    ensures r.Valid()
  {
    if n == 0 then k
    else
      var prev := SensedUpTo(k, p, cs, n - 1, byzantine, lieRoll, offset, size);
      if InRange(cs[n - 1], p) then
        Put(prev, n - 1, Reading(cs[n - 1], byzantine, lieRoll(n - 1), offset(n - 1), size))
      else prev
  }

  /** After sensing the first `n` customers, each sighted one is recorded as
      its `Reading`, every other entry is kept, and nothing else is added. */
  lemma {:induction false} SensedUpToEntries(k: Dict, p: Pos, cs: seq<Pos>, n: nat, byzantine: bool,
                                             lieRoll: nat -> real, offset: nat -> (int, int), size: int)
    requires k.Valid() && n <= |cs| && size >= 1
    ensures var r := SensedUpTo(k, p, cs, n, byzantine, lieRoll, offset, size);
      && (forall c: nat :: Sighted(cs, p, n, c) ==>
            c in r.at && r.at[c] == Reading(cs[c], byzantine, lieRoll(c), offset(c), size))
      && (forall c :: c in k.at && !Sighted(cs, p, n, c) ==> c in r.at && r.at[c] == k.at[c])
      && (forall c :: c in r.at ==> c in k.at || Sighted(cs, p, n, c))
  {
    forall c: nat
      ensures var r := SensedUpTo(k, p, cs, n, byzantine, lieRoll, offset, size);
        && (Sighted(cs, p, n, c) ==> c in r.at && r.at[c] == Reading(cs[c], byzantine, lieRoll(c), offset(c), size))
        && (c in k.at && !Sighted(cs, p, n, c) ==> c in r.at && r.at[c] == k.at[c])
        && (c in r.at ==> c in k.at || Sighted(cs, p, n, c))
    {
      SensedAt(k, p, cs, n, byzantine, lieRoll, offset, size, c);
    }
  }

  /** `SensedUpToEntries` for one customer id. */
  lemma {:induction false} SensedAt(k: Dict, p: Pos, cs: seq<Pos>, n: nat, byzantine: bool,
                                    lieRoll: nat -> real, offset: nat -> (int, int), size: int, c: nat)
    requires k.Valid() && n <= |cs| && size >= 1
    ensures var r := SensedUpTo(k, p, cs, n, byzantine, lieRoll, offset, size);
      && (Sighted(cs, p, n, c) ==> c in r.at && r.at[c] == Reading(cs[c], byzantine, lieRoll(c), offset(c), size))
      && (c in k.at && !Sighted(cs, p, n, c) ==> c in r.at && r.at[c] == k.at[c])
      && (c in r.at ==> c in k.at || Sighted(cs, p, n, c))
  {
    if n > 0 {
      SensedAt(k, p, cs, n - 1, byzantine, lieRoll, offset, size, c);
      var prev := SensedUpTo(k, p, cs, n - 1, byzantine, lieRoll, offset, size);
      assert Sighted(cs, p, n, c) <==> Sighted(cs, p, n - 1, c) || (c == n - 1 && InRange(cs[n - 1], p));
      if InRange(cs[n - 1], p) {
        var v := Reading(cs[n - 1], byzantine, lieRoll(n - 1), offset(n - 1), size);
        assert SensedUpTo(k, p, cs, n, byzantine, lieRoll, offset, size) == Put(prev, n - 1, v);
      }
    }
  }

  /** `observe`'s effect on knowledge: the customers are sensed in list order. */
  function Sensed(k: Dict, p: Pos, cs: seq<Pos>, byzantine: bool,
                  lieRoll: nat -> real, offset: nat -> (int, int), size: int): (r: Dict)
    requires k.Valid() && size >= 1
    ensures r.Valid()
    ensures k.at.Keys <= r.at.Keys
  {
    SensedUpToEntries(k, p, cs, |cs|, byzantine, lieRoll, offset, size);
    SensedUpTo(k, p, cs, |cs|, byzantine, lieRoll, offset, size)
  }

  /** What sensing promises: every customer within sensing range is recorded
      under its index, exactly by an honest agent and within `DistortionLimit`
      per axis and on the grid by a Byzantine one; every other entry is kept,
      no key is removed, and a dictionary of on-grid beliefs stays on the grid. */
  lemma SensingFidelity(k: Dict, p: Pos, cs: seq<Pos>, byzantine: bool,
                        lieRoll: nat -> real, offset: nat -> (int, int), size: int)
    requires k.Valid() && size >= 1
    requires forall i :: 0 <= i < |cs| ==> InGrid(cs[i], size)
    requires forall i :: -DistortionLimit <= offset(i).0 <= DistortionLimit
                         && -DistortionLimit <= offset(i).1 <= DistortionLimit
    ensures var r := Sensed(k, p, cs, byzantine, lieRoll, offset, size);
      && (!byzantine ==> forall i :: 0 <= i < |cs| && InRange(cs[i], p) ==> i in r.at && r.at[i] == cs[i])
      && (byzantine ==> forall i :: 0 <= i < |cs| && InRange(cs[i], p) ==>
            && i in r.at && InGrid(r.at[i], size)
            && -DistortionLimit <= r.at[i].x - cs[i].x <= DistortionLimit
            && -DistortionLimit <= r.at[i].y - cs[i].y <= DistortionLimit)
      && (forall c :: c in k.at && !(c < |cs| && InRange(cs[c], p)) ==> c in r.at && r.at[c] == k.at[c])
      && k.at.Keys <= r.at.Keys
      && (forall c :: c in r.at && c !in k.at ==> c < |cs| && InRange(cs[c], p))
      && ((forall c :: c in k.at ==> InGrid(k.at[c], size)) ==> forall c :: c in r.at ==> InGrid(r.at[c], size))
  {
    SensedUpToEntries(k, p, cs, |cs|, byzantine, lieRoll, offset, size);
  }

  predicate AnyInRangeUpTo(p: Pos, cs: seq<Pos>, n: nat)
    requires n <= |cs|
  {
    exists i :: 0 <= i < n && InRange(cs[i], p)
  }

  /** `share_knowledge`'s result: a full copy of the knowledge, except that a
      report made below `LowBattery` fails, and is empty, when its roll is
      below `ReportFailureProbability`. */
  function Report(k: Dict, battery: real, roll: real): (r: Dict)
    requires k.Valid()
    ensures r.Valid()
    ensures r == k || r == Empty
    ensures battery >= LowBattery || roll >= ReportFailureProbability ==> r == k
    ensures battery < LowBattery && roll < ReportFailureProbability ==> r.at == map[]
  {
    if battery < LowBattery && roll < ReportFailureProbability then Empty else k
  }

  /** The last `HistoryLength` entries of a history that grew by one. */
  function Recent(h: seq<Pos>): (r: seq<Pos>)
    ensures |h| <= HistoryLength ==> r == h
    ensures |h| == HistoryLength + 1 ==> r == h[1..]
    ensures |h| > 0 ==> r != [] && r[|r| - 1] == h[|h| - 1]
  {
    if |h| > HistoryLength then h[1..] else h
  }

  /** `j` indexes the first key, in iteration order, whose stored coordinate
      is nearest to `p`: every earlier key is strictly farther, no later one is
      nearer. */
  ghost predicate FirstNearest(d: Dict, p: Pos, j: int)
    requires d.Valid()
  {
    && 0 <= j < |d.keys|
    && (forall i :: 0 <= i < j ==> DistSq(d.at[d.keys[i]], p) > DistSq(d.at[d.keys[j]], p))
    && (forall i :: j < i < |d.keys| ==> DistSq(d.at[d.keys[i]], p) >= DistSq(d.at[d.keys[j]], p))
  }

  class Agent {
    const id: int
    const isByzantine: bool
    /** `battery_drain_rate`, drawn once from `[0.08, 0.12]`. */
    const batteryDrainRate: real
    const maxSpeed: real
    const currentSpeed: real

    var pos: Pos
    var knowledge: Dict
    var step: nat

    // spiral search state
    var direction: int
    var spiralLength: int
    var stepsInCurrentDirection: int
    var turnsTaken: int

    var battery: real
    var rotation: real
    var lastPositions: seq<Pos>
    var messageCooldown: nat

    /** The agent's invariant: a well-formed dictionary, a cardinal direction,
        an arm length that grows by one every second turn with the steps of the
        current arm below it, and battery, heading and history within their
        ranges. */
    ghost predicate Valid()
      reads this`knowledge, this`direction, this`spiralLength, this`stepsInCurrentDirection, this`turnsTaken,
            this`battery, this`rotation, this`lastPositions
    {
      knowledge.Valid() && Ranges()
    }

    /** The part of `Valid` that does not concern the knowledge dictionary. */
    ghost predicate Ranges()
      reads this`direction, this`spiralLength, this`stepsInCurrentDirection, this`turnsTaken,
            this`battery, this`rotation, this`lastPositions
    {
      && SpiralInvariant(direction, spiralLength, stepsInCurrentDirection, turnsTaken)
      && 0.0 <= battery <= 100.0
      && 0.08 <= batteryDrainRate <= 0.12
      && maxSpeed == 1.0 && currentSpeed == 1.0
      && 0.0 <= rotation < 360.0
      && |lastPositions| <= HistoryLength
    }

    /** `Agent(id, pos, is_byzantine)`; `drainRate` is the drawn drain rate. */
    constructor (id: int, pos: Pos, isByzantine: bool, drainRate: real)
      requires 0.08 <= drainRate <= 0.12
      ensures Valid()
      ensures this.id == id && this.pos == pos && this.isByzantine == isByzantine
      ensures batteryDrainRate == drainRate
      ensures knowledge == Empty && step == 0 && battery == 100.0
      ensures direction == 0 && spiralLength == 1 && stepsInCurrentDirection == 0 && turnsTaken == 0
      ensures rotation == 0.0 && lastPositions == [] && messageCooldown == 0
    {
      this.id := id;
      this.pos := pos;
      this.isByzantine := isByzantine;
      batteryDrainRate := drainRate;
      maxSpeed := 1.0;
      currentSpeed := 1.0;
      knowledge := Empty;
      step := 0;
      direction := 0;
      spiralLength := 1;
      stepsInCurrentDirection := 0;
      turnsTaken := 0;
      battery := 100.0;
      rotation := 0.0;
      lastPositions := [];
      messageCooldown := 0;
    }

    /** `drain_battery`: subtract the drain for this tick (`noise` is the
        `uniform(0.9, 1.1)` factor), floor at zero, report whether charge is left. */
    method DrainBattery(noise: real) returns (alive: bool)
      requires Valid() && 0.9 <= noise <= 1.1
      modifies this`battery
      ensures Valid()
      ensures battery == Max0(old(battery) - batteryDrainRate * (currentSpeed / maxSpeed) * noise)
      ensures battery < old(battery) || battery == 0.0
      ensures alive <==> battery > 0.0
    {
      assert currentSpeed / maxSpeed == 1.0;
      assert batteryDrainRate * 1.0 * noise >= 0.08 * noise > 0.0;
      battery := battery - batteryDrainRate * (currentSpeed / maxSpeed) * noise;
      battery := Max0(battery);
      alive := battery > 0.0;
    }

    /** `_move_random`: one step of `walk` (each component from `{-1, 0, 1}`),
        clamped to the grid. */
    method MoveRandom(env: Environment, walk: (int, int))
      requires Valid() && env.Valid()
      requires -1 <= walk.0 <= 1 && -1 <= walk.1 <= 1
      modifies this`pos, this`step
      ensures Valid()
      ensures pos == ClampPos(old(pos).x + walk.0, old(pos).y + walk.1, env.size)
      ensures InGrid(pos, env.size) && step == old(step) + 1
    {
      pos := ClampPos(pos.x + walk.0, pos.y + walk.1, env.size);
      step := step + 1;
    }

    /** The gradual turn both movement strategies make toward `target`. */
    method TurnToward(target: real)
      requires Valid() && 0.0 <= target < 360.0
      modifies this`rotation
      ensures Valid()
      ensures rotation == Turn(old(rotation), target)
    {
      TurnCloses(rotation, target);
      rotation := Turn(rotation, target);
    }

    /** What `_move_spiral` leaves from position `p`, direction `d`, `steps`
        taken on an arm of length `length`, `turns` taken and heading
        `heading0`: the heading turned toward the cardinal angle of `d`, the
        step taken in the direction a blocked step redirects to, and the
        spiral bookkeeping advanced. */
    ghost predicate Spiralled(p: Pos, d: int, steps: int, length: int, turns: int, heading0: real, size: int)
      requires 0 <= d < 4 && size >= 1
      reads this`pos, this`rotation, this`direction, this`stepsInCurrentDirection, this`turnsTaken
    {
      && rotation == Turn(heading0, CardinalHeading(d))
      && var heading := Redirected(p, d, size);
         && pos == Advance(p, heading, size)
         && if steps + 1 < length then
              && direction == heading && stepsInCurrentDirection == steps + 1 && turnsTaken == turns
            else
              && direction == NextDirection(heading) && stepsInCurrentDirection == 0 && turnsTaken == turns + 1
    }

    /** The spiral bookkeeping is still direction `d`, `steps` taken on an
        arm of length `length`, and `turns` taken. */
    ghost predicate SpiralKept(d: int, steps: int, length: int, turns: int)
      reads this`direction, this`stepsInCurrentDirection, this`spiralLength, this`turnsTaken
    {
      direction == d && stepsInCurrentDirection == steps && spiralLength == length && turnsTaken == turns
    }

    /** The heading, from `heading0`, has turned toward the bearing from `p`
        of the first nearest coordinate in the knowledge `k`. */
    ghost predicate Sought(k: Dict, p: Pos, heading0: real, atan2Degrees: (int, int) -> real)
      requires k.Valid()
      requires forall dy, dx :: -180.0 <= atan2Degrees(dy, dx) <= 180.0
      reads this`rotation
    {
      exists j :: FirstNearest(k, p, j) && rotation == Turn(heading0, Bearing(p, k.at[k.keys[j]], atan2Degrees))
    }

    /** `_move_spiral`: one step of the expanding square spiral. The heading
        turns toward the cardinal angle of the direction held on entry, even
        when a blocked step then redirects; a redirect advances the direction
        without counting a turn; after `spiralLength` steps the spiral turns,
        and every second turn lengthens the arm. */
    method MoveSpiral(env: Environment)
      requires Valid() && env.Valid()
      modifies this`pos, this`step, this`rotation, this`direction,
               this`stepsInCurrentDirection, this`turnsTaken, this`spiralLength
      ensures Valid()
      ensures InGrid(pos, env.size) && step == old(step) + 1
      ensures Spiralled(old(pos), old(direction), old(stepsInCurrentDirection), old(spiralLength), old(turnsTaken),
                        old(rotation), env.size)
    {
      var newPos := Advance(pos, direction, env.size);
      TurnToward(CardinalHeading(direction));
      if newPos == pos {
        direction := NextDirection(direction);
        newPos := Advance(pos, direction, env.size);
      }
      pos, step := newPos, step + 1;
      CountSpiralStep();
    }

    /** The bookkeeping at the end of `_move_spiral`: count the step, and
        after `spiralLength` steps turn, lengthening the arm every second turn. */
    method CountSpiralStep()
      requires Valid()
      modifies this`direction, this`stepsInCurrentDirection, this`turnsTaken, this`spiralLength
      ensures Valid()
      ensures if old(stepsInCurrentDirection) + 1 < old(spiralLength) then
                && direction == old(direction)
                && stepsInCurrentDirection == old(stepsInCurrentDirection) + 1
                && turnsTaken == old(turnsTaken)
              else
                && direction == NextDirection(old(direction))
                && stepsInCurrentDirection == 0
                && turnsTaken == old(turnsTaken) + 1
    {
      stepsInCurrentDirection := stepsInCurrentDirection + 1;
      if stepsInCurrentDirection >= spiralLength {
        direction := NextDirection(direction);
        stepsInCurrentDirection := 0;
        turnsTaken := turnsTaken + 1;
        if turnsTaken % 2 == 0 {
          spiralLength := spiralLength + 1;
        }
      }
    }

    /** The nearest-customer search of `_move_toward_target`: the first key,
        in iteration order, whose stored coordinate is strictly nearer than
        every earlier one (squared distances order like distances), or `None`
        for empty knowledge. */
    method NearestKnown() returns (nearest: Option<nat>)
      requires knowledge.Valid()
      ensures nearest.None? <==> knowledge.keys == []
      ensures nearest.Some? ==> nearest.value in knowledge.at
      ensures nearest.Some? ==> exists j :: FirstNearest(knowledge, pos, j) && knowledge.keys[j] == nearest.value
    {
      var best: Option<nat> := None;
      var bestDist := 0;
      var i := 0;
      while i < |knowledge.keys|
        invariant 0 <= i <= |knowledge.keys|
        invariant best.None? <==> i == 0
        invariant best.Some? ==> best.value < i && bestDist == DistSq(knowledge.at[knowledge.keys[best.value]], pos)
        invariant best.Some? ==> forall l :: 0 <= l < best.value ==>
                    DistSq(knowledge.at[knowledge.keys[l]], pos) > bestDist
        invariant best.Some? ==> forall l :: best.value < l < i ==>
                    DistSq(knowledge.at[knowledge.keys[l]], pos) >= bestDist
      {
        var d := DistSq(knowledge.at[knowledge.keys[i]], pos);
        if best.None? || d < bestDist {
          best, bestDist := Some(i), d;
        }
        i := i + 1;
      }
      if best.Some? {
        assert FirstNearest(knowledge, pos, best.value);
        nearest := Some(knowledge.keys[best.value]);
      } else {
        nearest := None;
      }
    }

    /** `_move_toward_target`: turn toward the bearing of the nearest known
        customer and step along the heading; `cosSin(a)` stands for
        `(cos(radians(a)), sin(radians(a)))`, `jitterRoll` and `jitter` for the
        occasional `uniform(-0.2, 0.2)` perturbation. Falls back to the spiral
        when knowledge is empty. */
    method MoveTowardTarget(env: Environment, atan2Degrees: (int, int) -> real,
                            cosSin: real -> (real, real), jitterRoll: real, jitter: (real, real))
      requires Valid() && env.Valid()
      requires forall dy, dx :: -180.0 <= atan2Degrees(dy, dx) <= 180.0
      requires -0.2 <= jitter.0 <= 0.2 && -0.2 <= jitter.1 <= 0.2
      modifies this`pos, this`step, this`rotation, this`direction,
               this`stepsInCurrentDirection, this`turnsTaken, this`spiralLength
      ensures Valid()
      ensures InGrid(pos, env.size) && step == old(step) + 1
      ensures knowledge.keys != [] ==>
        && SpiralKept(old(direction), old(stepsInCurrentDirection), old(spiralLength), old(turnsTaken))
        && Sought(knowledge, old(pos), old(rotation), atan2Degrees)
    {
      var nearest := NearestKnown();
      if nearest.Some? {
        var target := knowledge.at[nearest.value];
        var targetAngle := atan2Degrees(target.y - pos.y, target.x - pos.x);
        if targetAngle < 0.0 {
          targetAngle := targetAngle + 360.0;
        }
        assert targetAngle == Bearing(pos, target, atan2Degrees);
        TurnToward(targetAngle);
        var (ux, uy) := cosSin(rotation);
        var moveDx, moveDy := ux * currentSpeed, uy * currentSpeed;
        if jitterRoll < JitterProbability {
          moveDx, moveDy := moveDx + jitter.0, moveDy + jitter.1;
        }
        pos := Stepped(pos, moveDx, moveDy, env.size);
        step := step + 1;
      } else {
        MoveSpiral(env);
      }
    }

    /** `observe`: record every customer within sensing range (see `Sensed`);
        any sighting sets the message cooldown. `lieRoll(i)` and `offset(i)`
        are the draws a Byzantine agent makes for customer `i`. */
    method Observe(env: Environment, lieRoll: nat -> real, offset: nat -> (int, int))
      requires Valid() && env.Valid()
      requires forall i :: -DistortionLimit <= offset(i).0 <= DistortionLimit
                           && -DistortionLimit <= offset(i).1 <= DistortionLimit
      modifies this`knowledge, this`messageCooldown
      ensures Valid()
      ensures knowledge == Sensed(old(knowledge), pos, env.customers, isByzantine, lieRoll, offset, env.size)
      ensures messageCooldown ==
        if AnyInRangeUpTo(pos, env.customers, |env.customers|) then MessageTicks else old(messageCooldown)
    {
      var i := 0;
      while i < |env.customers|
        invariant 0 <= i <= |env.customers|
        invariant Valid()
        invariant knowledge == SensedUpTo(old(knowledge), pos, env.customers, i, isByzantine, lieRoll, offset, env.size)
        invariant messageCooldown ==
          if AnyInRangeUpTo(pos, env.customers, i) then MessageTicks else old(messageCooldown)
      {
        var c := env.customers[i];
        if DistSq(c, pos) <= SensingRangeSq {
          knowledge := Put(knowledge, i, Reading(c, isByzantine, lieRoll(i), offset(i), env.size));
          messageCooldown := MessageTicks;
        }
        i := i + 1;
      }
    }

    /** `share_knowledge`: count the message cooldown down (never below zero)
        and return `Report(knowledge, battery, roll)`, a copy of the knowledge
        or, on a failed low-battery transmission, the empty dictionary. */
    method ShareKnowledge(roll: real) returns (report: Dict)
      requires knowledge.Valid()
      modifies this`messageCooldown
      ensures messageCooldown == Max(old(messageCooldown) - 1, 0)
      ensures report == Report(knowledge, battery, roll)
    {
      if messageCooldown > 0 {
        messageCooldown := messageCooldown - 1;
      }
      if battery < LowBattery && roll < ReportFailureProbability {
        return Empty;
      }
      report := knowledge;
    }

    /** The regular part of `move`: an honest agent with knowledge seeks its
        nearest target and every other agent spirals; then the agent senses
        and appends its position to the bounded history. */
    method SearchAndSense(env: Environment, atan2Degrees: (int, int) -> real,
                          cosSin: real -> (real, real), jitterRoll: real, jitter: (real, real),
                          lieRoll: nat -> real, offset: nat -> (int, int))
      requires Valid() && env.Valid()
      requires forall dy, dx :: -180.0 <= atan2Degrees(dy, dx) <= 180.0
      requires -0.2 <= jitter.0 <= 0.2 && -0.2 <= jitter.1 <= 0.2
      requires forall i :: -DistortionLimit <= offset(i).0 <= DistortionLimit
                           && -DistortionLimit <= offset(i).1 <= DistortionLimit
      modifies this`pos, this`step, this`rotation, this`direction, this`stepsInCurrentDirection,
               this`turnsTaken, this`spiralLength, this`knowledge, this`messageCooldown, this`lastPositions
      ensures Valid()
      ensures InGrid(pos, env.size) && step == old(step) + 1
      ensures knowledge == Sensed(old(knowledge), pos, env.customers, isByzantine, lieRoll, offset, env.size)
      ensures old(knowledge).at.Keys <= knowledge.at.Keys
      ensures lastPositions == Recent(old(lastPositions) + [pos])
      ensures messageCooldown ==
        if AnyInRangeUpTo(pos, env.customers, |env.customers|) then MessageTicks else old(messageCooldown)
      ensures !isByzantine && old(knowledge).keys != [] ==>
        && SpiralKept(old(direction), old(stepsInCurrentDirection), old(spiralLength), old(turnsTaken))
        && Sought(old(knowledge), old(pos), old(rotation), atan2Degrees)
      ensures isByzantine || old(knowledge).keys == [] ==>
        Spiralled(old(pos), old(direction), old(stepsInCurrentDirection), old(spiralLength), old(turnsTaken),
                  old(rotation), env.size)
    {
      if knowledge.keys != [] && !isByzantine {
        MoveTowardTarget(env, atan2Degrees, cosSin, jitterRoll, jitter);
      } else {
        MoveSpiral(env);
      }
      Observe(env, lieRoll, offset);
      SensingFidelity(old(knowledge), pos, env.customers, isByzantine, lieRoll, offset, env.size);
      lastPositions := Recent(lastPositions + [pos]);
    }

    /** `move`: one tick. A drained battery stops everything; a Byzantine agent
        whose `erraticRoll` is below `ErraticProbability` walks at random and
        returns before sensing; otherwise the agent searches and senses. */
    method Move(env: Environment, noise: real, erraticRoll: real, walk: (int, int),
                atan2Degrees: (int, int) -> real, cosSin: real -> (real, real),
                jitterRoll: real, jitter: (real, real),
                lieRoll: nat -> real, offset: nat -> (int, int))
      requires Valid() && env.Valid()
      requires 0.9 <= noise <= 1.1
      requires -1 <= walk.0 <= 1 && -1 <= walk.1 <= 1
      requires forall dy, dx :: -180.0 <= atan2Degrees(dy, dx) <= 180.0
      requires -0.2 <= jitter.0 <= 0.2 && -0.2 <= jitter.1 <= 0.2
      requires forall i :: -DistortionLimit <= offset(i).0 <= DistortionLimit
                           && -DistortionLimit <= offset(i).1 <= DistortionLimit
      modifies this
      ensures Valid()
      ensures battery == Max0(old(battery) - batteryDrainRate * (currentSpeed / maxSpeed) * noise)
      ensures battery <= old(battery)
      ensures battery == 0.0 ==>
        && pos == old(pos) && step == old(step) && knowledge == old(knowledge)
        && lastPositions == old(lastPositions) && messageCooldown == old(messageCooldown)
        && rotation == old(rotation)
        && SpiralKept(old(direction), old(stepsInCurrentDirection), old(spiralLength), old(turnsTaken))
      ensures battery > 0.0 ==> InGrid(pos, env.size) && step == old(step) + 1
      ensures battery > 0.0 && isByzantine && erraticRoll < ErraticProbability ==>
        && pos == ClampPos(old(pos).x + walk.0, old(pos).y + walk.1, env.size)
        && knowledge == old(knowledge) && lastPositions == old(lastPositions)
        && messageCooldown == old(messageCooldown) && rotation == old(rotation)
        && SpiralKept(old(direction), old(stepsInCurrentDirection), old(spiralLength), old(turnsTaken))
      ensures battery > 0.0 && !(isByzantine && erraticRoll < ErraticProbability) ==>
        && knowledge == Sensed(old(knowledge), pos, env.customers, isByzantine, lieRoll, offset, env.size)
        && lastPositions == Recent(old(lastPositions) + [pos])
        && messageCooldown ==
             if AnyInRangeUpTo(pos, env.customers, |env.customers|) then MessageTicks else old(messageCooldown)
      ensures battery > 0.0 && !isByzantine && old(knowledge).keys != [] ==>
        && SpiralKept(old(direction), old(stepsInCurrentDirection), old(spiralLength), old(turnsTaken))
        && Sought(old(knowledge), old(pos), old(rotation), atan2Degrees)
      ensures battery > 0.0 && isByzantine && erraticRoll >= ErraticProbability ==>
        Spiralled(old(pos), old(direction), old(stepsInCurrentDirection), old(spiralLength), old(turnsTaken),
                  old(rotation), env.size)
      ensures battery > 0.0 && !isByzantine && old(knowledge).keys == [] ==>
        Spiralled(old(pos), old(direction), old(stepsInCurrentDirection), old(spiralLength), old(turnsTaken),
                  old(rotation), env.size)
      ensures old(knowledge).at.Keys <= knowledge.at.Keys
    {
      var alive := DrainBattery(noise);
      if !alive {
        return;
      }
      if isByzantine && erraticRoll < ErraticProbability {
        MoveRandom(env, walk);
        return;
      }
      SearchAndSense(env, atan2Degrees, cosSin, jitterRoll, jitter, lieRoll, offset);
    }
  }

  function Max0(b: real): (r: real)
    ensures r >= 0.0 && r >= b
    ensures b >= 0.0 ==> r == b
  {
    if b >= 0.0 then b else 0.0
  }
}
