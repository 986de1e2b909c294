# Jedi/Sith battle simulator: a verified model of the engine of `galaxy.cpp`

`galaxy.cpp` simulates a galaxy at war. Deployments of Jedi and Sith battalions arrive in
timestamp order, each led by a general and sent to a planet. Every planet holds:

- a battle queue per side;
- a running median of the troops lost in its battles, kept as two heaps;
- a "movie watcher" record of the most interesting ambush (a Sith waiting for a later,
  weaker-or-equal Jedi) and the most interesting attack (a Jedi met by a later,
  stronger-or-equal Sith).

After each deployment, the planet it went to fights battles while the strongest Sith is at
least as strong as the weakest Jedi. In each battle both battalions lose the smaller troop
count, that loss is charged to their generals, and twice the loss enters the planet's
running median. At the end of the day the program prints:

- the number of battles;
- optionally, a per-general evaluation (troops deployed and troops that survived);
- optionally, the watcher's verdict for every planet.

This project models that engine in Dafny:

| file | module | what it holds |
|---|---|---|
| `wrappers.dfy` | `Wrappers`, `Seqs` | `Option`, `Outcome`, removal from a sequence |
| `battalions.dfy` | `Battalions` | `struct Battalion`, the two comparators, queue tops, `battle`'s effect on one queue, troops held per general |
| `median.dfy` | `RunningMedian` | the two halves of `low`/`high`, their invariant, the median `printMedianOut` reads off the tops, and its agreement with the textbook median |
| `generals.dfy` | `Generals` | `struct General` and the conservation of troops between the ledger and the queues |
| `watcher.dfy` | `MovieWatcher` | `movie_data`, the watcher blocks of `readDL`, and what the record means over a planet's history |
| `planet.dfy` | `Planets` | `class Planet` with `addTroopsLost`, `battle` and the battle loop, updating it in place |
| `summary.dfy` | `Summary` | the lines of `printGeneralEvalOutput` and `printMovieWatcherOutput`, as values |
| `simulation.dfy` | `Simulation` | `SimulationInput` as a class and `readDL`: the checks, the deployment, the median lines, the battle loop, the end of day |

Battle queues and median heaps are sequences. The top of a queue is given by an index
function, and a pop removes that index. `JediTop` follows the Jedi comparator. `SithTop`
follows the Sith comparator on queues whose battalions all have troops, which every queue
of the program is; there the comparator's `numTroops != 0` guard never decides anything
(`SithGuardIsDefensive`). `readDL`'s locals (`arrivalOrder`, the two timestamps,
`total_battles`) form a `Progress` value. Each `printMedianOut` call inside the loop is
logged as one `MedianReport`: the time it prints and every planet's median.

The comparators (galaxy.cpp:87-108) are handed to `std::priority_queue`, which puts the
comparator-greatest element on top. So the Jedi top is the weakest Jedi and the Sith top
is the strongest Sith, each the earliest arrival among equal forces.

The battle loop of `readDL` is also given on values, as `Skirmish`: the queues it leaves
and the troops lost in each battle. A whole run is given on values as `Replay`, and the
imperative loop is proved to compute it: the queues of every planet, the battle count and
every general's deployed counts.

The watcher's replacement tests break a tie in force difference by timestamp
(galaxy.cpp:322, galaxy.cpp:371). With deployments in timestamp order that tie-break never
holds (`TieBreaksNeverHold`): on a tie the recorded pair stays. The recorded pair is
therefore the one with the largest difference, then the earliest later-arriving member,
then the earliest earlier member.

## Model

| member | source | states |
|---|---|---|
| Battalions.JediBelow | galaxy.cpp:87-97 | `JediComparator`: between different forces the stronger Jedi ranks below; between equal forces the later arrival ranks below; nothing ranks below itself |
| Battalions.SithBelowAsWritten | galaxy.cpp:98-108 | `SithComparator` as written: against a battalion with troops it is the force-then-arrival order `SithBelow`; against an empty one only an equal force with a later arrival ranks below |
| Battalions.SithBelow | galaxy.cpp:98-108 | the Sith order the model uses: between different forces the weaker Sith ranks below; between equal forces the later arrival ranks below |
| Battalions.JediTop | galaxy.cpp:87-97 | the Jedi queue's top has the lowest force of the queue and, among equal forces, the earliest arrival; nothing in the queue ranks above it |
| Battalions.SithTop | galaxy.cpp:98-108 | the Sith queue's top has the highest force and, among equal forces, the earliest arrival |
| Battalions.JediTopUnique | galaxy.cpp:87-97 | with distinct arrival orders the top is the only battalion nothing outranks |
| Battalions.SithGuardIsDefensive | galaxy.cpp:100 | for battalions that all have troops, the Sith comparator with its `numTroops != 0` guard orders exactly as without it |
| Battalions.PushKeepsLive | galaxy.cpp:298-305 | pushing a battalion with troops that arrived after everything queued keeps the queue live (troops, side, distinct arrival orders) and its generals known |
| Battalions.HitContents | galaxy.cpp:239-255 | popping the top at `k`, taking `loss` and pushing back: every other battalion stays, in order; the popped one comes back, last, with `loss` fewer troops exactly when it had more than `loss` |
| Battalions.TroopsAfterHit | galaxy.cpp:239-255 | popping a top, taking the loss and pushing back a survivor lowers that general's troops in the queue by exactly the loss, and nobody else's |
| Battalions.HitKeepsLive | galaxy.cpp:251-255 | a battle keeps a queue live; it shrinks by one exactly when the top loses all its troops |
| Battalions.BattleDue | galaxy.cpp:395-396 | the loop condition (both queues non-empty, top Sith at least as strong as top Jedi) holds exactly when some Sith in the queue is at least as strong as some Jedi |
| Battalions.Skirmish | galaxy.cpp:394-399 | the battle loop on values stops only with no battle due; the battalions left plus the battles fought never exceed the battalions it started with |
| Battalions.SkirmishKeepsLive | galaxy.cpp:238-258 | battles between queues whose battalions all have troops leave such queues, and every battle loses a positive number of troops |
| Battalions.SkirmishKeepsOrigins | galaxy.cpp:238-258 | battles bring no new battalion: battalions arrived by a given order, or led by known generals, stay so on each side |
| RunningMedian.MaxIndex | galaxy.cpp:117 | the top of the max-heap `low` is a largest value |
| RunningMedian.MinIndex | galaxy.cpp:118 | the top of the min-heap `high` is a smallest value |
| RunningMedian.Halve | galaxy.cpp:231 | C++ division by two truncates toward zero: for a non-negative sum the remainder left is 0 or 1, for a non-positive sum it is 0 or -1 |
| RunningMedian.MedianOf | galaxy.cpp:219-233 | `printMedianOut` prints no line for a planet exactly when it has recorded no loss |
| RunningMedian.PushLow | galaxy.cpp:203-204 | a value no larger than the top of `low` (or any value when both are empty) keeps every value of `low` at most every value of `high` |
| RunningMedian.PushHigh | galaxy.cpp:205-206 | a value larger than the top of `low` can join `high` and keep the split |
| RunningMedian.MoveLowTop | galaxy.cpp:210-212 | moving the top of `low` onto `high` keeps the split |
| RunningMedian.MoveHighTop | galaxy.cpp:213-215 | moving the top of `high` onto `low` keeps the split |
| RunningMedian.SortedUnique | galaxy.cpp:219-233 | a collection of values has only one sorted arrangement, which the textbook median is read from |
| RunningMedian.MedianIsTextbook | galaxy.cpp:219-233 | with the heaps balanced and split and all losses non-negative, the median printed is the middle value (odd count) or the floor of the mean of the two middle values (even count); the `high.size() > low.size()` branch is never taken |
| Generals.Credited | galaxy.cpp:305 | a deployment adds its troops to its general's deployed count on its side only |
| Generals.Charged | galaxy.cpp:247-248 | a battle adds the loss to the Jedi general's Jedi losses and the Sith general's Sith losses, nothing else |
| Generals.BattleAccounts | galaxy.cpp:238-258 | across one battle each general's lost-plus-held count stays the same on both sides, and the two queues together lose at least one battalion |
| Generals.ConservedInitially | galaxy.cpp:138-143 | with nothing deployed the ledger balances |
| Generals.Deploy | galaxy.cpp:301-305 | deploying a battalion keeps, for every general and side, deployed minus lost equal to the troops held in all queues of that side |
| Generals.Battles | galaxy.cpp:395-399 | battles on one planet that charge exactly the troops removed from its queues keep the ledger balanced |
| Generals.Survived | galaxy.cpp:165 | the survivor count is at most the total deployed when losses are non-negative, and equals it exactly when nothing was lost; `SurvivorsRemain` ties it to the troops still held |
| Generals.SurvivorsRemain | galaxy.cpp:163-165 | under the balanced ledger, a general's survivor count is the troops it still holds on both sides, so never negative |
| MovieWatcher.AmbushCheck | galaxy.cpp:308-333 | a Jedi arrival changes only the recorded ambush; a new pair is the strongest Sith so far, not later than the Jedi and at least as strong, and its difference is no smaller than the pair it replaces; a recorded ambush stays recorded |
| MovieWatcher.TrackWeakestJedi | galaxy.cpp:335-340 | the attack candidate becomes the weaker of itself and the new Jedi, keeping the earlier one on equal force; nothing else changes |
| MovieWatcher.TrackStrongestSith | galaxy.cpp:350-355 | the ambush candidate becomes the stronger of itself and the new Sith, keeping the earlier one on equal force; nothing else changes |
| MovieWatcher.AttackCheck | galaxy.cpp:357-382 | a Sith arrival changes only the recorded attack; a new pair is the weakest Jedi so far, not later than the Sith and no stronger, and its difference is no smaller than the pair it replaces; a recorded attack stays recorded |
| MovieWatcher.Watch | galaxy.cpp:307-383 | a Jedi arrival touches only the ambush pair and the attack candidate, a Sith arrival only the attack pair and the ambush candidate; afterwards the candidate of the new battalion's side is at least as extreme as it |
| MovieWatcher.WatchAllTracks | galaxy.cpp:307-383 | after a planet's deployments in timestamp order, the record holds the strongest Sith, the weakest Jedi, and the best ambush and attack among all earlier/later pairs (largest difference, then earliest later member, then earliest earlier member) |
| MovieWatcher.ReportedAmbushIsBest | galaxy.cpp:174-176 | an ambush is reported exactly when some Sith came before a Jedi no stronger than it; the reported pair has the largest force difference, among ties the earliest Jedi and then the earliest Sith, and is the only pair that does |
| MovieWatcher.ReportedAttackIsBest | galaxy.cpp:185-187 | an attack is reported exactly when some Jedi came before a Sith at least as strong; the reported pair has the largest force difference, among ties the earliest Sith and then the earliest Jedi, and is the only pair that does |
| MovieWatcher.CandidatesAreExtremes | galaxy.cpp:335-355 | `maybe_ambush_sith` is the strongest Sith so far and `maybe_attack_jedi` the weakest Jedi so far, each the earliest among equal forces |
| MovieWatcher.RecordedDifferenceNeverShrinks | galaxy.cpp:316-331 | once an ambush or attack is recorded it stays recorded, and its force difference never decreases |
| MovieWatcher.TieBreaksNeverHold | galaxy.cpp:316-323 | with deployments in timestamp order, whenever a pair is recorded the candidate that could replace it arrived no earlier than the recorded pair's member on the same side, so the timestamp tie-breaks at lines 322 and 371 never hold |
| Planets.ChargeLosses | galaxy.cpp:247-248 | only the two battling generals' loss counters change, each by the loss |
| Planets.Planet.constructor | galaxy.cpp:110-136 | a new planet has empty queues and heaps and an empty watcher record |
| Planets.Planet.Deploy | galaxy.cpp:301-305 | the battalion is pushed on the queue of its side and the other queue, the heaps and the watcher record are unchanged; the planet stays valid |
| Planets.Planet.WatchArrival | galaxy.cpp:307-383 | after the watcher blocks the record is the watcher's pass over the whole history of the planet |
| Planets.Planet.Receive | galaxy.cpp:301-383 | a deployment reaching its planet: pushed on the queue of its side, added to the history, the heaps untouched, and the planet then ready for the battle loop with its watcher record brought up to date |
| Planets.Planet.AddTroopsLost | galaxy.cpp:202-217 | the heaps stay balanced and split, and together gain exactly the new value |
| Planets.Planet.PushLoss | galaxy.cpp:203-207 | the push keeps the split, adds exactly the value, and unbalances the sizes by at most one |
| Planets.Planet.Rebalance | galaxy.cpp:209-216 | moving at most one top restores the balance and keeps the values |
| Planets.Planet.Battle | galaxy.cpp:238-258 | the loss is the smaller troop count of the two tops; each top loses it and goes back only with troops left; the two generals are charged; `2 * loss` joins the heaps |
| Planets.Planet.Clash | galaxy.cpp:239-255 | the queue and ledger half of `battle`, with the heaps untouched |
| Planets.Planet.Round | galaxy.cpp:394-399 | one pass of the battle loop is the first step of `Skirmish`: the losses so far plus the rest still to fight stay those `Skirmish` lists, the queues shrink, the ledger stays balanced and the heaps gain twice the loss |
| Planets.Planet.Drain | galaxy.cpp:394-399 | the loop fights exactly the battles `Skirmish` lists for the planet's queues: the queues end as `Skirmish` leaves them, the count returned is its number of battles, and the heaps gain twice each of its losses; every troop removed is charged as lost |
| Summary.EvalLineOf | galaxy.cpp:163-165 | a general's line reports troops deployed per side, the total, and survivors equal to the total minus both sides' losses |
| Summary.AmbushSighting | galaxy.cpp:174-185 | the ambush line is interesting exactly under the reportability test, with a non-negative difference |
| Summary.AttackSighting | galaxy.cpp:186-196 | the attack line is interesting exactly under the reportability test, with a non-negative difference |
| Summary.AmbushSightingMeans | galaxy.cpp:171-185 | after a planet's deployments the ambush line is interesting exactly when some Sith came before a weaker-or-equal Jedi, and it names the times and difference of the best such pair; every best pair has those times and that difference |
| Summary.AttackSightingMeans | galaxy.cpp:186-196 | after a planet's deployments the attack line is interesting exactly when some Jedi came before a stronger-or-equal Sith, and it names the times and difference of the best such pair; every best pair has those times and that difference |
| Simulation.Enlist | galaxy.cpp:280-302 | the battalion built from an accepted record carries its timestamp, general, planet, side, force and troops, and the arrival order it was given |
| Simulation.Check | galaxy.cpp:284-295 | a deployment is accepted exactly when its general and planet exist, its force and troops are positive, and its timestamp is not below the previous one; an invalid deployment is reported exactly when the general, planet, force or troops fail their test, and a decreasing timestamp exactly when they pass and the timestamp is below the previous one |
| Simulation.Verdict | galaxy.cpp:280-296 | a run ends in success exactly when it accepts every deployment |
| Simulation.VerdictMeans | galaxy.cpp:284-296 | a run accepts exactly the longest prefix of deployments that pass their checks and stops on the next one with the error its check reports |
| Simulation.AcceptedInOrder | galaxy.cpp:291-296 | the accepted deployments are in non-decreasing timestamp order |
| Simulation.ReportTimesIncreasing | galaxy.cpp:386-392 | over deployments in timestamp order the median lines of the loop report strictly increasing times, each below the last timestamp |
| Simulation.ReplayBounded | galaxy.cpp:296-399 | every battle removes at least one battalion: after any accepted deployments, the battalions still queued plus the battles fought never exceed the number of deployments |
| Simulation.EnrolmentSums | galaxy.cpp:305 | a general's deployed count on a side is the sum of the troops of its deployments on that side (line 347 for the Sith side) |
| Simulation.ReplayedStep | galaxy.cpp:296-399 | an accepted deployment pushed on its planet, with that planet's battles then fought and its troops enrolled, moves the replay on by that deployment |
| Simulation.EvaluationReplayed | galaxy.cpp:161-168 | evaluation lines of the generals after a run report each general's deployments per side and, as survivors, the troops it holds in the replayed queues |
| Simulation.Medians | galaxy.cpp:219-233 | the snapshot holds one median per planet, in planet order |
| Simulation.NewPlanets | galaxy.cpp:151-155 | `planets(np)` builds `np` distinct, fresh, empty planets |
| Simulation.Simulation.constructor | galaxy.cpp:145-156 | `SimulationInput` starts with fresh, empty planets and a fresh array of generals that have deployed and lost nothing, and the ledger balanced |
| Simulation.ReadInput | galaxy.cpp:444-448 | building `SimulationInput` for the header's sizes and running `readDL` gives the verdict of the deployment list, the median lines of the accepted deployments, and, exactly when nothing is rejected, the end of day of their replay |
| Simulation.Simulation.Arrive | galaxy.cpp:296-305 | an accepted deployment takes the next arrival order and is pushed on the queue of its side on its planet, the other queues unchanged; its general is credited; the medians are unchanged |
| Simulation.Simulation.Place | galaxy.cpp:299-383 | the battalion lands on the queue of its side on its own planet, and on no other; its general is credited; the watcher record follows the history |
| Simulation.Simulation.Step | galaxy.cpp:296-399 | one accepted deployment: the arrival count grows by one; a median line for the old time is logged exactly when the timestamp changes in median mode, with the medians before this deployment's battles; the queues of its planet become those `Skirmish` leaves after the push, the battle count grows by its battles and the heaps by twice its losses; its general is enrolled; the ledger and every planet's invariant are kept |
| Simulation.Simulation.Settle | galaxy.cpp:386-399 | the median check and then the battle loop on the planet that received the deployment |
| Simulation.Simulation.MedianCheck | galaxy.cpp:386-392 | a median line for the current time is logged exactly when the new timestamp differs in median mode, and the current timestamp moves to the new one; nothing else changes |
| Simulation.Simulation.Fight | galaxy.cpp:394-399 | the battle loop fights exactly the battles `Skirmish` lists for the planet: its queues become those `Skirmish` leaves, `total_battles` grows by the number of battles and the heaps by twice each loss; deployed counts and history are unchanged and no battle is due anywhere |
| Simulation.Simulation.MedianSnapshot | galaxy.cpp:219-233 | the values `printMedianOut` prints, per planet |
| Simulation.Simulation.Advance | galaxy.cpp:284-399 | one pass of the loop: the checks, then (if they pass) the deployment; the state is then that of the first `k + 1` deployments accepted (queues, battle count and deployed counts those of the replay, median lines those of the loop), or unchanged on a rejection |
| Simulation.Simulation.Proceed | galaxy.cpp:296-399 | an accepted deployment moves the arrival count and both timestamps to it, logs one median line (the medians before it, at the old time) exactly when its timestamp is new in median mode, and changes queues, battle count and deployed counts as one replay step |
| Simulation.Logged | galaxy.cpp:386-392 | the line a deployment logs when its timestamp differs from the one before (in median mode) extends the times reported by exactly that earlier time and keeps them strictly increasing |
| Simulation.Simulation.Run | galaxy.cpp:280-400 | the loop stops exactly where the verdict says; then the queues, battle count and deployed counts are those of the replay of the accepted deployments, and the median lines report exactly the times at which the timestamp changed, in strictly increasing order |
| Simulation.Simulation.Evaluation | galaxy.cpp:161-168 | one evaluation line per general, in general order |
| Simulation.Simulation.Sightings | galaxy.cpp:171-199 | one ambush and one attack line per planet, in planet order |
| Simulation.Simulation.SurvivorsHeld | galaxy.cpp:163-165 | the survivors in a general's line are the troops it still holds on all planets, so never negative |
| Simulation.Simulation.SightingsFaithful | galaxy.cpp:171-199 | in watcher mode each planet's lines name the best ambush and the best attack of its deployments (largest difference, then earliest later member, then earliest earlier member), or none exactly when no such pair exists; every best pair has the times named |
| Simulation.Simulation.EndOfDay | galaxy.cpp:401-418 | the final median line carries the current timestamp (median mode); the battle count is the replay's; the evaluation reports each general's deployments and the troops it holds in the replayed queues, never negative; watcher lines appear only in their mode |
| Simulation.Simulation.ReadDL | galaxy.cpp:271-419 | the end of day is output exactly when no deployment is rejected; the median lines are those of the accepted deployments, in time order; the final one carries the last timestamp; the battle count and every evaluation line are those of the replay of the deployments |

## Left out

- Option parsing (`printHelp`, `getOptions`, galaxy.cpp:13-66) is replaced by the `Config` record; `--verbose` only prints, so it is not modelled.
- The header reading of `readInput` (galaxy.cpp:428-443) and the pseudo-random input path (galaxy.cpp:450-461): `P2random` is not part of this model. `ReadInput` takes the header as a `Config` and the deployments as a sequence of parsed records.
- Token extraction with `std::istream >>` (galaxy.cpp:280-282) is not modelled. A record whose side word is `JEDI` is a Jedi deployment; any other word makes it a Sith deployment, as in the code.
- All console output (`std::cout`, `std::cerr`, the verbose battle line at galaxy.cpp:261-264) is left out. The model keeps the values the lines print: `MedianReport`, `DaySummary`, `EvalLine`, `Sighting`.
- `exit(1)` becomes `Fail(InvalidDeployment)` or `Fail(DecreasingTimestamp)`. The model then produces no end-of-day summary, as the program prints none.
- `allJediDeployments` and `allSithDeployments` (galaxy.cpp:120-121, 303, 345) are written and never read. Their role is taken by a ghost `history` per planet: every deployment routed there, in order, for both sides.
- The layout and running time of `std::priority_queue` are not modelled. Queues and heaps are sequences whose top is found by a linear index function; a pop removes that element.
- C++ integer widths are not modelled: `int` counters, `2 * loss`, and `uint32_t` IDs read from negative input. All integers are unbounded.
- Simulation.Simulation.Run: over the whole run, does not state that each planet's history is exactly the accepted deployments routed to it, because the replay does not carry the histories. `Step` states this for each deployment.
- Simulation.Simulation.Run: over the whole run, does not state which values each planet's median heaps hold, because the replay keeps the losses of all planets in one sequence. `Step` and `Fight` state it for each deployment.
- Simulation.Simulation.ReadDL: does not tie the watcher lines to the deployment list. `SightingsFaithful` ties them to each planet's history, and the history is not tied to the list over a whole run (see `Run`).
- Simulation.Simulation.SurvivorsHeld: does not state that survivors are at most the total deployed, because the ledger invariant does not track that losses are non-negative.
- Simulation.Simulation.ReadDL: states only the times of the median lines. `Step` states their median values, which are the medians before that deployment's battles.
