# Rocket-Neural: a Dafny model of the training simulation

Rocket-Neural (`Rocket-Neural/script.js`) is a browser game. A population of 500 rockets learns
to hover over a moving collection target. Each rocket is steered by a neural network that
neataptic evolves. This project models the core of that simulation:

- the rocket record: its sensors (`calculateNeuralInputs`), how it decodes its network's three
  outputs (`applyNetworkOutputs`), its integration step (`updatePosition`), the two boundary
  policies (`keepRocketInBounds`) and the scoring of `updateRockets`
  (`calculateDistanceToTarget`, `isInCollectionArea`, `calculateFitness`);
- the collection target's drift (`updateCollectionPosition`);
- the script's global state and what drives a training run: `createRockets`, `updateRockets`,
  `evolve`, the training branch of `gameLoop`, `allRocketsInactive`, `saveBestGenome`,
  `toggleAcceleration`, `resetTraining`/`resetSimulation`, and of the duel `startPlayAgainstAI`,
  `checkWinCondition` and `endGame`.

The modules follow the script's layering:

- `Numerics` holds the constants and the `Math` primitives. `Math.sqrt`, `pow`, `exp`, `sin`,
  `cos` and `atan2` are function values in a `MathLib`. `Lawful...` predicates state the laws a
  lemma needs of them.
- `World` holds the records and the sensors.
- `Neat` holds the genome object that neataptic provides. It is a class because `neat.mutate()`
  changes genomes in place.
- `Physics` and `Drift` describe one frame of a rocket and of the target as pure functions.
- `Bodies` holds the rocket and target objects. Their methods perform the script's assignments
  in place and are proved equal to those functions.
- `Game` holds the globals (`Simulation`) and the operations that change them.

Anything random or external is an input:

- `Math.random()` draws;
- `brain.activate`;
- the order `neat.sort()` produces;
- the networks `neat.getOffspring()` breeds;
- the map `neat.mutate()` applies.

Behaviour of `script.js` worth noting:

- `evolve` keeps the elite genomes as the same objects; it does not clone them, so
  `neat.mutate()` then mutates them too.
- `saveBestGenome` stores the genome object itself; it does not clone it. It picks the highest
  `currentFitness` (the last frame's fitness), and it fails only when there are no rockets.
- The own-heading sensor uses JavaScript's truncating `%`. `Numerics.TurnRemainder` models it,
  so a negative angle gives a negative heading.
- `resetTraining` does not reset the duel's `centerTime` counters. Only `setupVsAIMode` does.
- The training `updatePosition` has no guard against non-finite values.
- `isTraining` starts true and only `startPlayAgainstAI` writes it, to false. `endGame` does not
  set it back, so after a duel `gameLoop` runs neither its training branch nor its duel branch.

## Model

| member | source | states |
|---|---|---|
| Numerics.Clamp | Rocket-Neural/script.js:848-872 | the `Math.max(lo, Math.min(v, hi))` clamp lands in [lo, hi] when that interval is non-empty, is the identity inside it, and returns lo when it is empty |
| Numerics.Fraction | Rocket-Neural/script.js:766-810 | what truncation toward zero leaves of q: q minus it is q truncated toward zero; it lies in (-1, 1), has the sign of q, and is q itself when q lies in (-1, 1) |
| Numerics.TurnRemainder | Rocket-Neural/script.js:766-810 | JavaScript's `angle % (2 * Math.PI)`: the angle minus it is a whole number of turns, the quotient truncated toward zero; it lies strictly within one turn, keeps the sign of the dividend, and leaves an angle already within one turn unchanged |
| World.SpawnInCanvas | Rocket-Neural/script.js:558-561 | for `Math.random()` draws in [0, 1) the shared spawn point lies in [0, W - 450) x [0, H - 280), so every freshly created rocket is inside the canvas |
| World.Heading | Rocket-Neural/script.js:766-810 | the own-heading sensor is in (-1, 1) and has the sign of the rocket's angle |
| World.NeuralInputs | Rocket-Neural/script.js:766-810 | exactly 11 inputs; the centre offsets are scaled by the canvas and the velocities by 10; inputs 4-6 are bearing, heading and wrapped difference; inputs 7 to 10 are the clearances to the left, right, top and bottom walls, each as a share of the canvas, so opposite ones sum to 1 - size/canvas; all four clearances are non-negative iff the rocket is inside the canvas |
| World.NeuralInputAngles | Rocket-Neural/script.js:766-810 | with a lawful atan2 the bearing lies in (-1/2, 1/2] of a turn, the heading in (-1, 1), and the wrapped difference in (-PI, PI] |
| World.DistanceIsRoot | Rocket-Neural/script.js:740-750 | `calculateDistanceToTarget` (World.DistanceToTarget): the centre-to-centre distance is non-negative, and it is 0 exactly when both centre offsets are 0 |
| World.InCollectionAreaIff | Rocket-Neural/script.js:752-764 | `isInCollectionArea` (World.IsInCollectionArea): being in the collection area is the same as the squared centre distance being below COLLECTION_RADIUS squared |
| World.FitnessRange | Rocket-Neural/script.js:627-644 | `calculateFitness` (World.CalculateFitness): the instantaneous fitness lies in (0, 1000], and is 1000 when the centres coincide |
| World.CloserIsFitter | Rocket-Neural/script.js:627-644 | a rocket no farther from the target never gets a lower fitness |
| Physics.ApplyNetworkOutputs | Rocket-Neural/script.js:812-838 | decoding the outputs changes only thrusting, speed, angle and flame angle (the rest is in ControlDecoding, UprightCorrection, FireAngleBounded) |
| Physics.UpdatePosition | Rocket-Neural/script.js:840-846 | integration changes only position and speed (the rest is in NoDrag) |
| Physics.KeepRocketInBounds | Rocket-Neural/script.js:848-872 | the bounds step changes only position, speed and activity; it never switches a rocket on; a rocket that fits in the canvas ends inside it (the rest is in TrainingBoundary, VsAIBoundary) |
| Physics.Tick | Rocket-Neural/script.js:689-721 | a frame never switches a rocket on and never changes its size (the rest is in TickBookkeeping, TickInactive, TickDeactivation) |
| Physics.ControlDecoding | Rocket-Neural/script.js:812-838 | the rocket thrusts exactly when output 0 exceeds 0.5, and its speed is unchanged otherwise; output 1 turns left whatever output 2 says; output 2 turns right only without output 1; outside the collection area the heading moves the commanded way; position, activity and lifetime are untouched |
| Physics.UprightCorrection | Rocket-Neural/script.js:813-837 | in the collection area the final heading is 0.9 times the rotated heading, so it moves toward upright without crossing 0 |
| Physics.FireAngleBounded | Rocket-Neural/script.js:823-831 | for frame lengths in [0, 10] the flame angle stays within plus or minus MAX_FIRE_ANGLE whatever the turn command |
| Physics.Relax | Rocket-Neural/script.js:829-831 | removing a share in [0, 1] of a value leaves a value between 0 and it, on the same side of 0 |
| Physics.NoDrag | Rocket-Neural/script.js:840-846 | with DRAG = 1 the horizontal speed is kept; gravity adds 0.4 dt to the vertical speed; the position moves by speed times dt |
| Physics.TrainingBoundary | Rocket-Neural/script.js:848-872 | in training, a rocket outside the canvas ends inactive, clamped and stopped; one inside is unchanged; a rocket that fits always ends inside; it stays active iff it was active and inside |
| Physics.VsAIBoundary | Rocket-Neural/script.js:848-872 | in the duel, `active` is untouched and the position is clamped into the canvas, x to [0, W - width] and y to [0, H - height], so a rocket that fits ends inside; each speed is zeroed exactly when the clamped position sits on that axis's bound, and is kept otherwise |
| Physics.TickBookkeeping | Rocket-Neural/script.js:689-721 | for an active rocket, lifetime grows by 1 and fitness is the maximum of the old fitness and the new currentFitness; bestDistance becomes the smaller of the old bestDistance and the current distance; collectionsReached grows by 1 exactly when the rocket ends in the collection area |
| Physics.TickInactive | Rocket-Neural/script.js:689-691 | an inactive rocket is left exactly as it was |
| Physics.TickDeactivation | Rocket-Neural/script.js:689-721 | in training an active rocket stays active iff its flight leaves it inside the canvas; in the duel a frame never switches a rocket off |
| Drift.UpdateCollectionPosition | Rocket-Neural/script.js:91-131 | the target's size never changes (the rest is in SpeedBounded, PositionInBox, BounceFlips) |
| Drift.DrawnSpeedRange | Rocket-Neural/script.js:96-99 | a redrawn target speed lies in [-5, 5) |
| Drift.InitialCollectionInBox | Rocket-Neural/script.js:488-497 | the initial target lies strictly inside its drift box, with speeds in [-1, 1) and no target speed |
| Drift.SpeedBounded | Rocket-Neural/script.js:91-131 | after any frame both target speeds lie in [-5, 5] whatever the state before |
| Drift.PositionInBox | Rocket-Neural/script.js:91-131 | after any frame the target lies in the box that keeps a 20% margin from every edge, provided it fits (the exact clamped value is in BounceFlips) |
| Drift.BounceFlips | Rocket-Neural/script.js:113-130 | the final position is the moved one clamped into the margin box; on an axis that reached the margin both speed and target speed flip sign; on any other axis they are kept, and so is the moved position |
| Drift.BounceTurnsInwardX | Rocket-Neural/script.js:109-117 | a target inside the box that crosses the left (right) margin leaves the frame moving right (left) |
| Drift.BounceTurnsInwardY | Rocket-Neural/script.js:109-123 | a target inside the box that crosses the top (bottom) margin leaves the frame moving down (up) |
| Drift.SignOfStep | Rocket-Neural/script.js:109-111 | over a positive time step the distance moved has the sign of the speed |
| Neat.Genome.constructor | Rocket-Neural/script.js:226-228 | a bred genome holds the offspring network and has not yet been scored |
| Bodies.Rocket.constructor | Rocket-Neural/script.js:587-604 | a new rocket is at rest at the spawn point, active, with no fitness and bestDistance Infinity, and is bound to its genome |
| Bodies.Rocket.Update | Rocket-Neural/script.js:689-721 | the in-place frame leaves the rocket in the state RocketFrame gives (so the Physics lemmas apply to it); the genome's score becomes the fitness iff the rocket was active |
| Bodies.Rocket.ApplyNetworkOutputs | Rocket-Neural/script.js:812-838 | the in-place assignments leave the rocket in the state that Physics.ApplyNetworkOutputs (see ControlDecoding) gives |
| Bodies.Rocket.ApplyThrust | Rocket-Neural/script.js:815-821 | the thrust assignments match the thrust step |
| Bodies.Rocket.ApplyTurn | Rocket-Neural/script.js:823-831 | the rotation assignments match the rotation step, with left tested before right |
| Bodies.Rocket.UpdatePosition | Rocket-Neural/script.js:840-846 | the in-place integration matches Physics.UpdatePosition (see NoDrag) |
| Bodies.Rocket.KeepInBounds | Rocket-Neural/script.js:848-872 | the in-place bounds code matches KeepRocketInBounds (see TrainingBoundary, VsAIBoundary) |
| Bodies.Rocket.RecordScore | Rocket-Neural/script.js:702-719 | the scoring assignments match the score step, and the genome's score becomes the rocket's fitness |
| Bodies.Collection.constructor | Rocket-Neural/script.js:488-497 | the target object starts in the state InitialCollection gives (see InitialCollectionInBox) |
| Bodies.Collection.UpdatePosition | Rocket-Neural/script.js:91-131 | the in-place drift leaves the target in the state UpdateCollectionPosition gives (see SpeedBounded, PositionInBox) |
| Bodies.Collection.Steer | Rocket-Neural/script.js:95-107 | the redraw, easing and speed clamp match the steering step |
| Bodies.Collection.Move | Rocket-Neural/script.js:109-111 | the position moves by speed times dt |
| Bodies.Collection.Confine | Rocket-Neural/script.js:113-130 | the bounce and the final clamp match the confinement step |
| Game.DwellIsStreak | Rocket-Neural/script.js:334-345 | a centerTime counter never exceeds its start plus the frames since; every one of the last counter-many frames was in the area; a frame outside resets it to 0 |
| Game.StreakCounts | Rocket-Neural/script.js:334-345 | the converse of DwellIsStreak: n frames in a row in the area, ending now, raise the counter to at least n |
| Game.WinIffStreak | Rocket-Neural/script.js:334-352 | a counter started at 0 reaches WIN_TIME if and only if the last WIN_TIME frames were all spent in the collection area |
| Game.ToggledFactor | Rocket-Neural/script.js:453-461 | the acceleration factor is always 1 or 10, and it is 10 exactly when it was 1 |
| Game.ToggleTwice | Rocket-Neural/script.js:453-461 | pressing the button twice restores either setting |
| Game.FrameLaws | Rocket-Neural/script.js:689-691 | a rocket's frame leaves an inactive rocket exactly as it was and never switches a rocket on |
| Game.InactiveStaysPut | Rocket-Neural/script.js:689-691 | an inactive rocket stays exactly where it is through any number of sub-steps |
| Game.NeverReactivated | Rocket-Neural/script.js:689-721 | a rocket active after k sub-steps was active after every earlier sub-step |
| Game.TargetAfterInBox | Rocket-Neural/script.js:91-131 | after one or more sub-steps the target keeps its size, its speeds lie in [-5, 5] and, when it fits, it lies in its drift box |
| Game.Simulation.constructor | Rocket-Neural/script.js:488-556 | after initializeGame and resetSimulation: the target at its initial state, the population given, one fresh spawned rocket per genome bound to it, counters at 0, training at normal speed, no saved genome |
| Game.Simulation.CreateRockets | Rocket-Neural/script.js:558-605 | one fresh rocket per genome, in population order, rocket i flying genome i, all at rest at the same spawn point, no rocket twice |
| Game.Simulation.UpdateRockets | Rocket-Neural/script.js:689-721 | every rocket reaches its own RocketFrame toward the current target; networks are untouched; each genome's score becomes its rocket's fitness iff the rocket was active, and is kept otherwise |
| Game.Simulation.UpdateRocket | Rocket-Neural/script.js:690-720 | one forEach step changes only rocket i and the score of genome i, because no two rockets share a genome |
| Game.Simulation.Evolve | Rocket-Neural/script.js:203-239 | in play mode nothing changes. Otherwise (the Evolved predicate): the first 50 genomes are the 50 best in neat.sort's order (the same objects, mutated, scores kept); the other 450 are fresh mutated offspring; generation rises by 1; frame counter and bestFitness reset; new spawned rockets are bound one to one; modes, saved genome, speed, isTraining and duel counters are kept; the invariant is kept |
| Game.Simulation.Repopulate | Rocket-Neural/script.js:217-232 | the new population has 500 distinct genomes: the elites in sort order and then the offspring, every one mutated |
| Game.Simulation.Breed | Rocket-Neural/script.js:217-228 | elites first in neat.sort's order, then one fresh unscored genome per offspring network, no genome twice |
| Game.Simulation.MutateAll | Rocket-Neural/script.js:232 | every genome's network becomes the mutation of its old one and its score is kept |
| Game.Simulation.TrainingFrame | Rocket-Neural/script.js:398-427 | only while training; it evolves iff not in play mode and (the lifespan is reached or every rocket is inactive), and then the new state is the one Evolve promises, with no sub-step and the target where it was. In play mode it neither evolves nor runs a sub-step. Otherwise it runs at most accelerationFactor sub-steps, at least one: after them the target is TargetAfter the draws and every rocket is RocketAfter, that many RocketFrames with its own network toward the moving target; each genome's score is its rocket's fitness iff the rocket was active; the frame counter grows by the sub-steps and never passes LIFESPAN from below. The early stop holds both ways: fewer than accelerationFactor sub-steps only when LIFESPAN is reached or all rockets are inactive, and before the last sub-step the counter was below LIFESPAN and some rocket was still active (so, by NeverReactivated, before every earlier one too). Generation, bestFitness, savedGenome, modes, speed and duel counters are kept; the invariant is kept |
| Game.Simulation.RunSubSteps | Rocket-Neural/script.js:418-427 | the `!playMode` sub-step loop, no round in play mode: the target after `steps` moves, every rocket after `steps` frames, the scores, the frame counter, and the early stop in both directions (some rocket active and LIFESPAN not reached before the last sub-step), as in TrainingFrame |
| Game.Simulation.RunLoop | Rocket-Neural/script.js:419-427 | the loop itself, from the generation it starts from: after it the generation is `steps` sub-steps on, and it left the loop before accelerationFactor only at LIFESPAN or with all rockets inactive; when it ran more than one sub-step, rocket `alive` was active, and the counter below LIFESPAN, after `aliveAt` sub-steps, the last one or the one before it |
| Game.Simulation.Round | Rocket-Neural/script.js:420-426 | one pass of the loop body: one sub-step, then the break test, true iff LIFESPAN is reached or every rocket is inactive; when it is false, rocket `live` is still active |
| Game.Simulation.SubStep | Rocket-Neural/script.js:420-422 | one sub-step takes the generation from k to k + 1 sub-steps: target moved, every rocket one RocketFrame further, scores recorded, frame counter up by 1 |
| Game.Simulation.InactiveGenerationFrozen | Rocket-Neural/script.js:463-468 | `allRocketsInactive` (Game.Simulation.AllRocketsInactive): once no rocket is active, no number of further sub-steps changes any rocket |
| Game.Simulation.SomeRocketActive | Rocket-Neural/script.js:463-468 | the other direction of `allRocketsInactive`: when it is false after k sub-steps, some rocket `i` is still active after those k sub-steps of its own network |
| Game.Simulation.BestRocketIndex | Rocket-Neural/script.js:613-615 | no index iff there are no rockets; otherwise the first rocket of highest currentFitness, which is the one the `reduce` picks |
| Game.Simulation.SaveBestGenome | Rocket-Neural/script.js:608-618 | it saves iff there is a rocket, and then stores the genome of the first rocket of highest currentFitness; otherwise savedGenome is kept |
| Game.Simulation.ToggleAcceleration | Rocket-Neural/script.js:453-461 | the factor switches 1 to 10 and anything else to 1 |
| Game.Simulation.CheckWinCondition | Rocket-Neural/script.js:334-352 | each counter grows while its rocket is in the collection area and resets to 0 otherwise; the player wins iff their counter reaches WIN_TIME; the AI wins iff it does and the player's does not; without a win nothing but the counters changes; a win ends the game and keeps the population and speed |
| Game.Simulation.EndGame | Rocket-Neural/script.js:287-292 | back to training mode, then the training is reset; the population, speed and duel counters are kept; isTraining is not touched |
| Game.Simulation.StartPlayAgainstAI | Rocket-Neural/script.js:54-89 | only while training: training stops, the mode becomes the duel, the first best rocket's genome is saved, and when a genome is saved the duel counters restart from 0; bestFitness, the generation, the frame counter, the rockets, the population, play mode and speed are kept; otherwise nothing changes |
| Game.Simulation.ResetTraining | Rocket-Neural/script.js:537-549 | play mode off, no saved genome, counters at 0, fresh spawned rockets bound to the kept population; game mode, speed, isTraining and duel counters untouched |

## Left out

- Rendering (`draw*`), images, audio (`rocketSound`), the DOM, keyboard controls, `alert`,
  `console` output, `requestAnimationFrame` and `setInterval`: they are I/O.
- neataptic's internals are not part of this model. `neat.sort`, `neat.getOffspring`,
  `neat.mutate` and `brain.activate` are inputs: an order, a list of networks, a function and
  an activation function. A freshly bred genome is given score 0; the library
  leaves it unset, and the script overwrites it in the next frame.
- Play mode with a single rocket is not modelled: `switchToPlayMode`, the `singleRocket`
  branches of `createRockets` (with the `genome.clone` of the saved genome), `allRocketsInactive` and `gameLoop`. `playMode` is kept as a
  field, so that `evolve`'s early return and `resetTraining` are modelled.
- The duel's own dynamics are not modelled: the rockets of `setupVsAIMode` (`createPlayerRocket`,
  `createAIRocket`, `positionRockets`), `startCountdown`, `startGame`, the duel branch of
  `gameLoop`, `updateVsAIMode`, `updatePlayerRocket` and `updateAIRocket`. Their timers, key
  handling and NaN repair are I/O-driven. `checkWinCondition` takes the two rockets' states as
  inputs. Game.Simulation.StartPlayAgainstAI keeps, of `setupVsAIMode`, only the reset of the
  duel counters, as if both duel rockets were created.
- The `rockets.sort` in `evolve` and the `reduce` in `gameLoop` only feed console messages and
  are not modelled.
- Floating point is not modelled. Coordinates are reals; `Math.PI` is its decimal expansion;
  `Math.sqrt`, `pow`, `exp`, `sin`, `cos` and `atan2` are uninterpreted, with only the laws
  stated in `Numerics`; `Infinity` is the `Extended` datatype. Rounding, NaN and overflow are
  outside the model.
- Game.Simulation.UpdateRockets: `rocket.brain.activate` is assumed to be a function of the
  network and the inputs. A network with internal state between activations is not captured.
