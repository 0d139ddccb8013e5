# Drone delivery simulation — verified model

A fleet of five drones searches a square grid for customers that drift slowly
over time. Each drone (agent.py) spends battery and moves. An honest drone
follows an expanding square spiral until it knows of a customer, then turns
gradually toward the nearest customer it believes in. The Byzantine drone never
seeks a target: it always spirals, except on ticks where it walks at random.
Every drone senses customers within distance 3, and the Byzantine drone may
misreport what it senses by up to 5 cells per axis. After every tick the fleet runs a consensus pass (consensus.py). Each drone collects
the reports of the drones within distance 5. Then, for every customer id it
heard of, it polls the whole fleet's beliefs and overwrites its own with their
truncated mean when enough of them lie strictly within 3 of that mean. The
customer world (environment.py) jitters every customer by at most one cell on
every fifth call. Drones standing on a customer deliver to it (main.py). The
quality of a run is measured by the competitive ratio (metrics.py): total steps
over the summed distances to the nearest customers.

The Dafny modules follow the source files:

- `Geometry`: positions, clamping, squared distances, truncation and Python's float `% 360`.
- `Knowledge`: the knowledge dictionary, with its keys kept in insertion order.
- `Agents`: agent.py, as a class `Agent`.
- `World`: environment.py, as a class `Environment`.
- `Consensus`: consensus.py, as a class `Consensus`.
- `Metrics`: metrics.py.
- `Simulation`: the parts of main.py listed below.
- `Wrappers`: `Option`.

Every Euclidean test is stated exactly on integers:

- `distance <= 3` becomes `DistSq <= 9`.
- `distance <= 5` becomes `DistSq <= 25`.
- `distance(p, mean) < 3` for the mean of `m` points becomes `(m*px - Sx)^2 + (m*py - Sy)^2 < 9*m*m`.

Every random draw is a parameter of the method that makes it. Draws taken
from a range (the drain rate, the speed noise, the random-walk step, the
movement jitter, the initial customer positions, the customer jitter and the
lie offset) have that range as a
precondition. Probability rolls (the erratic roll, the jitter roll, the lie
roll and the report-failure roll) are unconstrained reals, compared with their
thresholds exactly as the code compares them.

The consensus pass visits the agents in list order and writes in place, so a later agent's poll sees the values earlier agents fused in the same pass. A pass that polled a snapshot taken at the start of the tick would not see them; the model keeps the in-place behaviour.

Two smaller points about the code:

- The signed angle difference lies in `[-180, 180)`: Python's `%` puts the shifted difference in `[0, 360)`.
- Within one agent's turn, each customer id is polled only once, because the keys of `shared` are distinct. So the poll for each id sees the fleet as it was at the start of that agent's turn. `LivePoll` proves this.

## Model

| member | source | states |
|---|---|---|
| Geometry.Clamp | agent.py:101-102 | the clamped coordinate lies in `[0, size-1]`, is the coordinate itself when already inside, and is the nearer edge otherwise |
| Geometry.ClampPos | agent.py:166-167 | a clamped position lies on the grid and an on-grid position is unchanged |
| Geometry.TruncDiv | consensus.py:19 | `astype(int)` of a quotient truncates toward zero: the bounds of the result for non-negative and negative numerators |
| Geometry.Trunc | agent.py:152-153 | `int()` of a float truncates toward zero |
| Geometry.TruncDivReal | consensus.py:17-19 | the integer quotient truncated toward zero equals `int()` of the exact real quotient |
| Geometry.Mod360 | agent.py:131 | Python's float `% 360` lies in `[0, 360)` |
| Geometry.DistSqBounds | agent.py:215 | the squared distance is zero exactly between equal points and at most `2k^2` within `k` per axis |
| Knowledge.Put | agent.py:220 | `d[k] = v` stores `v` under `k` and keeps every other entry; an existing key keeps its place in the iteration order and a new key is appended at the end |
| Knowledge.Update | consensus.py:13 | `d.update(src)` yields a well-formed dictionary (distinct keys listing exactly the map's domain); its entries and order are stated by `UpdateEntries` |
| Knowledge.PutAll | consensus.py:13 | putting the entries of `src` one by one in its key order yields a well-formed dictionary |
| Knowledge.PutAllEntries | consensus.py:13 | after putting the keys `ks`, every key of `d` or `ks` is held, a key of `ks` holds its value from `src`, and every other entry of `d` is kept |
| Knowledge.PutAllOrder | consensus.py:13 | with distinct keys `ks`, the iteration order after putting them is `d`'s keys followed by the keys of `ks` that `d` lacked, in `ks`'s order |
| Knowledge.NewKeysMembers | consensus.py:13 | the appended keys are exactly the keys of `ks` missing from `d` |
| Knowledge.UpdateEntries | consensus.py:13 | `d.update(src)` holds the keys of both, `src`'s values win, the other entries of `d` are kept, and the iteration order is `d`'s keys followed by `src`'s new keys in `src`'s order |
| Knowledge.UpdateEmpty | consensus.py:13 | updating with an empty report leaves `shared` unchanged |
| Agents.CardinalHeading | agent.py:170-171 | the target heading for a direction lies in `[0, 360)` |
| Agents.SpiralStep | agent.py:16 | each of `spiral_directions` moves exactly one cell along exactly one axis; `Advance` applies it at agent.py:163-167 |
| Agents.Advance | agent.py:166-167 | a spiral step lands on the grid, at most one cell from an on-grid start |
| Agents.Redirected | agent.py:186-192 | the direction changes exactly when the clamped step would leave the position unchanged |
| Agents.NextDirection | agent.py:189 | the next direction is `(d + 1) % 4` |
| Agents.ArmLength | agent.py:199-209 | under the spiral invariant the arm length is `1 + turns / 2` |
| Agents.AngleDiff | agent.py:131 | the signed turn to the target lies in `[-180, 180)` |
| Agents.Turn | agent.py:131-140 | the gradual turn of lines 131-140 and 174-183 keeps the heading in `[0, 360)` when the target is; `TurnCloses` states how it approaches the target |
| Agents.TurnCloses | agent.py:174-183 | the heading stays in `[0, 360)`, snaps to the target within one turning step, and otherwise closes the signed gap by exactly 15 degrees |
| Agents.Bearing | agent.py:126-128 | the bearing to the target lies in `[0, 360)` |
| Agents.Stepped | agent.py:152-154 | the truncated, clamped step lands on the grid |
| Agents.Reading | agent.py:217-234 | an honest agent, or a Byzantine one whose roll does not lie, records the true coordinate; a lie stays on the grid and within 5 per axis of the truth |
| Agents.SensedUpTo | agent.py:213-235 | scanning the first `n` customers in index order yields a well-formed dictionary; its entries are stated by `SensedAt` and `SensedUpToEntries` |
| Agents.SensedAt | agent.py:213-235 | for one customer id: after scanning `n` customers it holds that customer's reading when the customer is among them and in range, keeps its old belief otherwise, and is absent when neither applies |
| Agents.Sensed | agent.py:211-235 | sensing over all customers yields a well-formed dictionary that keeps every key the agent already knew |
| Agents.SensedUpToEntries | agent.py:213-235 | after scanning the first `n` customers, each one in range is recorded as its reading, every other entry is kept, and no other key is added |
| Agents.SensingFidelity | agent.py:213-234 | honest sensing records every customer in range exactly; Byzantine sensing records it on the grid and within 5 per axis; other entries are kept, no key is removed, and on-grid beliefs stay on the grid |
| Agents.Report | agent.py:243-248 | the report is a full copy of the knowledge, or the empty dictionary exactly when the battery is below 20 and the roll is below 0.3 |
| Agents.Recent | agent.py:91-93 | the history keeps its last 20 entries and ends with the newest position |
| Agents.Max0 | agent.py:49 | the battery floor is non-negative and leaves a non-negative level unchanged |
| Agents.Agent.constructor | agent.py:7-42 | a new agent starts valid at its position with its drawn drain rate, empty knowledge, full battery, step 0, heading 0, direction 0, arm length 1, no history and no cooldown |
| Agents.Agent.DrainBattery | agent.py:44-50 | the battery falls by the drawn drain, is floored at 0, strictly decreases unless it is 0, and the result says whether charge is left |
| Agents.Agent.MoveRandom | agent.py:95-104 | the random step is clamped to the grid and the step counter grows by one |
| Agents.Agent.TurnToward | agent.py:130-140 | the heading becomes the gradual turn toward the target and stays in `[0, 360)` |
| Agents.Agent.MoveSpiral | agent.py:160-209 | the heading turns toward the direction held on entry; the agent takes the clamped step in the direction it was redirected to (a blocked step redirects without counting a turn); after `spiralLength` steps the direction advances, the count resets and a turn is counted, otherwise the count grows; the agent lands on the grid, the step counter grows by one, and the spiral invariant is kept |
| Agents.Agent.CountSpiralStep | agent.py:198-209 | the step is counted; after `spiralLength` steps the direction advances, the count resets, a turn is counted, and the spiral invariant is kept |
| Agents.Agent.NearestKnown | agent.py:108-116 | the chosen key is the first in iteration order at minimum distance, and there is none exactly when the knowledge is empty |
| Agents.Agent.MoveTowardTarget | agent.py:106-158 | with knowledge, the agent turns toward the bearing of the first nearest known customer and leaves the direction, arm length, arm count and turn count alone; it always lands on the grid with the step counter grown by one |
| Agents.Agent.Observe | agent.py:211-235 | the knowledge becomes the sensed dictionary and the message cooldown becomes 5 exactly when some customer is in range |
| Agents.Agent.ShareKnowledge | agent.py:237-248 | the cooldown counts down without going below 0, and the result is the agent's report |
| Agents.Agent.SearchAndSense | agent.py:79-93 | an honest agent with knowledge seeks the first nearest known customer and keeps its spiral state; a Byzantine agent, or one that knows nothing, takes a spiral step; then the agent senses from its new position, sets the cooldown to 5 exactly when some customer is in range, records its position in the bounded history, and removes no key |
| Agents.Agent.Move | agent.py:67-93 | a drained battery leaves position, heading, spiral state, knowledge, history and cooldown as they were; an erratic Byzantine tick takes the clamped random step, skips sensing and keeps heading and spiral state; otherwise the agent seeks (honest, with knowledge) or spirals (Byzantine, or knowing nothing), then senses, sets the cooldown and records its position; the battery never increases and no key is removed |
| Consensus.PollSound | consensus.py:15 | every polled coordinate is some agent's belief about the id |
| Consensus.PollComplete | consensus.py:15 | every agent's belief about the id is polled, the receiver and non-neighbours included |
| Consensus.PollLocal | consensus.py:15 | the poll depends only on the beliefs about that id |
| Consensus.Poll | consensus.py:15 | the poll holds at most one coordinate per agent; `PollCount` and `PollSize` fix how many times each coordinate occurs, and `PollSound` and `PollComplete` which coordinates occur |
| Consensus.PollCount | consensus.py:15 | each coordinate occurs in the poll exactly as many times as agents hold it as their belief about the id |
| Consensus.PollSize | consensus.py:15 | the poll has exactly one entry per agent holding a belief about the id |
| Consensus.NearMeanReal | consensus.py:18 | the integer agreement test holds exactly when the Euclidean distance to the exact real mean is below 3 |
| Consensus.CountNear | consensus.py:18 | the count of polled beliefs near the mean is at most the poll's size, and equals it exactly when every polled belief is near |
| Consensus.Mean | consensus.py:17-19 | each coordinate of the fused value is `int()` of the exact real mean of the polled coordinates |
| Consensus.Agreed | consensus.py:16-18 | an empty poll fuses nothing, and a fused poll has at least `len(agents) // 2` voices |
| Consensus.MeanOnGrid | consensus.py:17-19 | the truncated mean of on-grid beliefs lies on the grid |
| Consensus.UnanimousAgreement | consensus.py:16-19 | a unanimous poll with a quorum fuses to the common belief itself |
| Consensus.PollUniform | consensus.py:15 | when every agent believes the same coordinate, the poll is one copy of it per agent |
| Consensus.FleetUnanimous | consensus.py:15-19 | a fleet whose agents all hold the same belief about an id fuses that id to exactly that belief |
| Consensus.Decision | consensus.py:16-19 | an id is decided only when its poll is non-empty and holds at least `len(agents) // 2` beliefs; `FusedWritten` says how the decision is applied |
| Consensus.AskersUpTo | consensus.py:11-13 | an agent is asked at most once by each other agent and never by itself |
| Consensus.Contribution | consensus.py:12-13 | another agent's report is merged only when it is a distinct agent within distance 5 whose report does not fail, and then with its own beliefs |
| Consensus.SharedUpTo | consensus.py:10-13 | merging the contributions of agents `0 .. n-1` in list order yields a well-formed dictionary; `SharedKeys` and `SharedValue` state its keys and values |
| Consensus.SharedAfter | consensus.py:13 | merging one more contribution by `update` yields a well-formed dictionary |
| Consensus.Shared | consensus.py:10-13 | agent `i`'s `shared` dictionary after asking the whole fleet is well-formed; `SharedKeys` and `SharedValue` state its keys and values |
| Consensus.SharedKeys | consensus.py:10-13 | an id is shared with agent `i` exactly when some agent it heard from knows it |
| Consensus.SharedValue | consensus.py:10-13 | the value shared for an id is that of the last agent heard from that knows it |
| Consensus.FusedUpTo | consensus.py:14-19 | fusing the shared ids one at a time yields a well-formed dictionary; `FusedKept` and `FusedWritten` state what each id becomes |
| Consensus.FusedKept | consensus.py:14-19 | an id absent from `shared` keeps its belief, present or absent |
| Consensus.FusedWritten | consensus.py:14-19 | a shared id is overwritten with the agreed value when the quorum holds and left alone otherwise |
| Consensus.LivePoll | consensus.py:14-15 | the poll taken for the next shared id sees the beliefs of the start of the agent's turn |
| Consensus.TakeTurn | consensus.py:10-19 | one agent's turn keeps the fleet's size and well-formed dictionaries |
| Consensus.TurnKeeps | consensus.py:14-19 | a turn removes no belief |
| Consensus.TurnSources | consensus.py:14-19 | a turn adds only ids some agent heard from knows, and each value is the agent's own or the fleet's agreed value |
| Consensus.TurnOnGrid | consensus.py:14-19 | a turn keeps every belief on the grid |
| Consensus.PassKeeps | consensus.py:9-19 | the pass removes no belief |
| Consensus.PassSources | consensus.py:9-19 | the pass invents no customer id |
| Consensus.PassOnGrid | consensus.py:9-19 | the pass keeps every belief on the grid |
| Consensus.PassFrom | consensus.py:9-19 | the turns of agents `i` onward, in list order, keep the fleet's size and well-formed dictionaries |
| Consensus.Pass | consensus.py:9-19 | the whole pass keeps the fleet's size and well-formed dictionaries; `PassKeeps`, `PassSources` and `PassOnGrid` state what it does to the beliefs |
| Consensus.AloneUnasked | consensus.py:12 | an agent with nobody within distance 5 is never asked |
| Consensus.AskersAll | consensus.py:12 | when everyone is within range, every other agent asks exactly once |
| Consensus.Askers | consensus.py:11-13 | fewer agents ask an agent than the fleet holds, since it never asks itself |
| Consensus.Consensus.constructor | consensus.py:5-6 | the engine holds the fleet it is given |
| Consensus.Consensus.UpdateKnowledge | consensus.py:8-19 | the fleet's knowledge becomes the in-order pass over the knowledge at the start, and each cooldown falls once per agent that asks it, floored at 0 |
| Consensus.Consensus.Visits | consensus.py:9-19 | the outer loop carries the fleet from the start of the pass to its end |
| Consensus.Consensus.Visit | consensus.py:9-19 | one iteration takes the knowledge to agent `i`'s turn and lowers the cooldown of each agent it asks |
| Consensus.Consensus.Round | consensus.py:10-19 | agent `i` gathers the shared dictionary and writes its fused knowledge in place |
| Consensus.Consensus.Gather | consensus.py:10-13 | `shared` is the in-order merge of the neighbours' reports, and exactly the agents asked have their cooldown lowered |
| Consensus.Consensus.AskNext | consensus.py:11-13 | one inner iteration merges the next contribution and changes no other agent's cooldown |
| Consensus.Consensus.Ask | consensus.py:12-13 | another agent within range is asked and its report merged, and only its cooldown falls |
| Consensus.Consensus.Fuse | consensus.py:14-19 | the agent's knowledge becomes its dictionary fused over the shared ids in order |
| Consensus.Consensus.FuseId | consensus.py:15-19 | one id is polled over the fleet's current knowledge and overwritten only on agreement |
| World.Jittered | environment.py:13-16 | the jittered list keeps its length and order, every customer lies on the grid, and each moves at most one cell per axis |
| World.Environment.constructor | environment.py:4-9 | the environment holds exactly the drawn customers, all on the grid, with a zero counter |
| World.Environment.MoveCustomers | environment.py:11-17 | the customers jitter only when the counter is a multiple of 5 and are otherwise unchanged; the counter grows by exactly one |
| Metrics.SumPositive | metrics.py:11-12 | a sum of naturals is positive exactly when one of them is |
| Metrics.SumStep | metrics.py:4 | one more step by one agent adds exactly one to the total |
| Metrics.Sum | metrics.py:4 | the sum is at least every one of its terms |
| Metrics.NearestSq | metrics.py:11 | the nearest squared distance is attained by some customer and is at most that of every customer |
| Metrics.NearestZero | metrics.py:11-12 | the nearest distance is zero exactly when the agent sits on a customer |
| Metrics.Nearest | metrics.py:11 | one nearest squared distance per agent, in list order |
| Metrics.CompetitiveRatio | metrics.py:3-12 | without customers the result is the total step count; otherwise it is the total over the sum of nearest distances, or infinity when that sum is zero |
| Metrics.InfiniteIffAllOnCustomers | metrics.py:12 | the ratio is infinite exactly when customers are left and every agent sits on one |
| Simulation.Launch | main.py:38-39 | five fresh, distinct agents at `(4i, 4i)` with their drawn drain rates, only agent 0 Byzantine, and a valid consensus engine over them |
| Simulation.CallsBefore | main.py:76-77 | the number of `move_customers` calls before a tick is the number of earlier multiples of 5 |
| Simulation.JitterCadence | main.py:76-77 | combined with the environment's own counter, customers jitter exactly on ticks that are multiples of 25 |
| Simulation.MoveWorld | main.py:76-77 | the customers jitter on ticks that are multiples of 25 and are unchanged on every other tick |
| Simulation.FirstAt | main.py:99-100 | the lowest index of a customer at the agent's position, and none exactly when no customer is there |
| Simulation.DeliverTo | main.py:99-102 | an agent's turn removes one customer exactly when one stands at its position, and none otherwise |
| Simulation.DeliverUpTo | main.py:98-104 | after the turns of the first `n` agents at most as many customers are left as there were |
| Simulation.DeliverOne | main.py:99-102 | an agent removes at most one customer, the first one exactly at its position; the rest keep their order |
| Simulation.DeliverOnce | main.py:99-103 | a second agent on a lone customer's spot removes nothing more |
| Simulation.DeliverCount | main.py:98-104 | a delivery pass removes at most one customer per agent |
| Simulation.DeliverRemoved | main.py:98-104 | a delivery pass removes only customers at some agent's position |
| Simulation.RemovedStep | main.py:99-102 | one agent's turn keeps every removed customer among the positions of the agents that have had their turn |
| Simulation.DeliverFor | main.py:99-104 | an agent's turn pops the first customer at its position and reports whether it did |
| Simulation.Deliver | main.py:98-104 | the pass leaves the in-order deliveries, and the delivered count plus the customers left is unchanged |
| Simulation.RunLength | main.py:113-116 | a run ends on the first tick with at least 100 steps or no customers left, and never after tick 100 |

## Left out

- visualize.py is not part of this model: rendering, animations, wind display and the results panel are user interface.
- main.py's event loop, pause handling, printing and wind application are left out. So is `Agent.apply_wind` (agent.py:52-65), which is float noise fed from the visualiser.
- Randomness: every draw is a parameter. Per-customer draws (lie roll, offset, jitter) are functions of the customer index.
- Trigonometry: `degrees(atan2(dy, dx))` and `(cos, sin)` of the heading are function parameters of `MoveTowardTarget`. The model does not fix their values; only the range of `atan2` is assumed.
- Floating point: reals are exact in the model, so float rounding in the battery, the heading and the mean is not modelled. Distances are compared through exact squared distances.
- Agents.Agent.MoveTowardTarget: states the heading and the grid bound, but not where the step lands, because that depends on the abstract `cos`/`sin` parameters.
- Metrics.CompetitiveRatio: the square roots and the division are kept symbolic (`Quotient(total, nearest)`), because Dafny has no square root.
- Simulation.RunLength: the customer count after each tick is a parameter. The whole tick is not composed into one method.
- Consensus.Consensus.Valid: requires the fleet to hold distinct agent objects, as main.py builds it. Python compares agents by identity.
- The message cooldown is a natural number. The source only ever sets it to 5 or counts it down while positive.
- The grid size is at least 1, which is a precondition of the environment.
- Unused fields (`grid`, `carrying_package`, `target_customer`, `returning_to_base`, `acceleration`, `delivery_attempt`) are not modelled.
