# Gas–solid interface reaction simulation, modelled in Dafny

This project models the simulation engine of `app.js`, a one-page classroom
animation. In it a diatomic gas (H2) reduces a pile of oxide particles (CuO)
to metal (Cu) and emits water vapour (H2O). The model covers the script's
world state and each step of its frame loop:

- the world state: the global `gas` and `solid` lists, `initial`,
  `reactionsDone`, `paused`, `trapMode` and `rIdx`, held as the fields of one
  `Simulation.World` object;
- the kinetics: temperature gives an agitation speed and a per-contact
  reaction probability, with the cold trap mode and the hidden rate multiplier;
- the motion of a gas molecule and its reflection off the four walls;
- the pairwise anti-overlap pass over the gas;
- the interface reaction pass: contact, velocity reversal, the probability
  draw, the conversion of CuO to Cu in place, the emission of H2O, the event
  counter and the purge of used molecules;
- the layered construction of the solid pile;
- `counts()`, `step()`, `init()` and the pause, T and R controls.

The modules follow the structure of the script:

- `Geometry` (`geometry.dfy`): `clamp`, `rand`, `dist` and `normalize`.
- `Kinetics` (`kinetics.dfy`): `kineticParams` and the rate levels.
- `Species` (`species.dfy`): the two particle records and the counting and
  filtering that the bookkeeping rests on.
- `Motion` (`motion.dfy`): `GasMol.move` and `resolveOverlapsGas`.
- `Pile` (`pile.dfy`): `buildSolidPile`.
- `Simulation` (`world.dfy`): the world and its operations.

The loops of the script are methods with loop invariants, and each is proved
against a reference function or a state predicate. Examples:

- `BuildSolidPile` produces `PileRows`.
- `ReactantCloud` produces `Cloud`.
- The reaction pass keeps `GasProgress` and `PileProgress`.
- Between steps, `World.Valid()` ties the event counter to the metal count,
  to the water count and to the reactant consumed.

Randomness is passed in as oracles:

- Every `Math.random()` draw is read from a function indexed by where it is
  used:
  - the pile particle number;
  - the gas molecule index;
  - the pair (molecule index, pile index) for the reaction draw.
- `rand(min, max)` is `u * (max - min) + min` of that draw.
- `Math.sqrt` and `Math.exp` are function parameters. The overlap pass
  uses the given square root. Where a property needs a true square root,
  the lemma requires the given function to be exact at the argument in
  question (`RootAt`).
- The contact test of the reaction pass, `dist(m, sp) <= threshold`, is
  modelled with an exact distance: both sides are non-negative, so it is
  compared on squares (`Simulation.InContact`). A rounded square root near
  the threshold could decide a contact differently.
- Numbers are mathematical reals.

Two properties that a reader might expect do not hold of the code as
written, and the model states what the code does instead:

- **Overlap push.** Pushing each molecule back by half the overlap would
  leave the pair exactly touching. The code pushes each molecule by 0.55 of
  the overlap instead (app.js:253-256).
  - `Motion.PushSeparates` proves what the code does for one pair: the pair
    ends `d + 1.1 (minD - d)` apart, which is more than the contact distance
    `minD`.
  - The pairs are updated in sequence, so a later push can recreate an
    earlier overlap. The model therefore claims no overlap-free result for
    the whole pass; `Motion.ResolveOverlapsGas` is proved equal to the
    reference sweep `Motion.Sweep`, pair by pair in the code's order.
- **Events against the initial oxide count.** The pile holds at most 70
  particles and none for a negative request, but `initial.CuO` records the
  request as given (app.js:403). So "events equal `initial.CuO` minus the
  oxide left" holds only for requests between 0 and 70.
  - The model states the balance against the size of the built pile.
  - `Simulation.World.EventsBalance` proves the balance against
    `initial.CuO` whenever the request lies between 0 and 70.

## Model

| member | source | states |
|---|---|---|
| Geometry.Clamp | app.js:45 | the result lies in [a, b] whenever a <= b; a value inside the window is returned unchanged, one below it gives a, one above it gives b; an empty window gives a |
| Geometry.RandInRange | app.js:44 | a draw in [0, 1) gives a value in [min, max], and strictly below max when min < max |
| Kinetics.NextRateIndex | app.js:434-436 | the R key keeps the index inside the four rate levels; it wraps to 0 exactly from the last level and otherwise moves up by one |
| Kinetics.RateCycleReturns | app.js:435 | four presses of R return to the starting multiplier |
| Kinetics.Agitation | app.js:211-212 | the agitation before cold damping always lies in [0.40, 3.8] |
| Kinetics.AgitationMonotone | app.js:211-212 | a warmer gas is never slower before damping |
| Kinetics.KineticParams | app.js:206-234 | for every temperature, p lies in [0, 0.55] and the speed in [0.22, 3.8]; at or above 25 degrees the speed is the undamped agitation |
| Kinetics.TrapDampsMore | app.js:227-231 | below 25 degrees the trap mode gives a probability no larger and a speed strictly smaller than the normal mode |
| Kinetics.TrapStrictlyLowersProbability | app.js:227-231 | below 25 degrees, with a positive Arrhenius factor and multiplier, the trap mode gives a strictly smaller, still positive, probability |
| Kinetics.TrapIrrelevantWhenWarm | app.js:227-231 | at or above 25 degrees the trap toggle changes neither output |
| Species.EnvelopeRadius | app.js:62-66 | the collision radius is positive, at most 26 (the water molecule), and smaller for the reactant |
| Species.NewGasMol | app.js:54-61 | a new molecule has the requested kind and is unused; with draws in [0, 1) its velocity components lie in [-1, 1) and it is placed at least 60 from the side and top walls and 220 above the bottom |
| Species.GasKindsPartition | app.js:319-320 | every molecule is counted as reactant or as product, never both |
| Species.SolidKindsPartition | app.js:321-322 | every pile particle is counted as oxide or as metal, never both |
| Species.LiveNoUsed | app.js:313 | the purge leaves no used molecule |
| Species.LiveCount | app.js:313 | after the purge each kind counts exactly the unused molecules of that kind before it |
| Species.LiveKeeps | app.js:313 | the purge drops no unused molecule |
| Motion.Bounce | app.js:72-75 | on one axis, when the arena is at least a diameter wide: the centre ends at clamp(v0, rad, extent - rad), so within the walls; it stays where the advance put it exactly when that point was already inside; the velocity component is negated exactly when the coordinate was clamped |
| Motion.Move | app.js:67-76 | move(speed) advances each coordinate by its velocity times the speed and then, on each axis at least a diameter wide, clamps the centre into [r, extent - r] with the velocity component negated exactly when the clamp moved it; kind and used mark do not change |
| Motion.PushApart | app.js:245-257 | one pair push changes only the two positions |
| Motion.PushSeparates | app.js:250-257 | with an exact square root, a pair closer than the envelope sum (and more than 0.001 apart) ends d + 1.1 (minD - d) apart, which is more than minD; any other pair is left as it was |
| Motion.ResolveOverlapsGas | app.js:237-260 | the pass is the reference sweep Sweep(list, 0): for each unused molecule i in order, each later unused molecule j in order is pushed apart from it with the positions written back; so only positions of unused molecules change, and the length, kinds, used marks and velocities are kept |
| Motion.PushRow | app.js:241-258 | the inner loop for the unused molecule at i is the reference row SweepRow(s, i, i + 1): each later unused molecule, in order, is pushed apart from i |
| Motion.SweepFrame | app.js:237-260 | a whole sweep changes only the positions of unused molecules: length, kinds, used marks and velocities kept, used molecules untouched |
| Motion.SweepRowFrame | app.js:241-258 | one row of the sweep changes only the positions of unused molecules |
| Pile.InRow | app.js:182 | a row never takes more than 6 + floor(row / 2) particles nor more than remain to be placed, and it advances the placed count by its size |
| Pile.PlacedBeforeCapped | app.js:179-192 | before a row starts, the builder has placed everything asked for or filled every row below |
| Pile.NineRowsPlacePileSize | app.js:181-194 | nine rows place min(n, 70) particles |
| Pile.RowPrefixShape | app.js:185-191 | the k-th particle appended in a row is the k-th particle of the reference layout |
| Pile.PileRowsSaturated | app.js:181-194 | once everything asked for is placed, further rows add nothing |
| Pile.PileFinished | app.js:181-194 | whether the builder stops because everything is placed or because nine rows are built, the pile is the nine-row layout and holds min(n, 70) particles |
| Pile.PileRowsHeight | app.js:183-189 | with vertical jitter draws in [0, 1), every particle of a pile of r rows lies between the base and the height of row r - 1, give or take the 2 of jitter |
| Pile.PlaceRow | app.js:182-192 | the inner loop appends exactly the particles of the row, all oxide, and advances the placed count to the next row's start |
| Pile.BuildSolidPile | app.js:171-195 | the pile is the reference layout of at most nine rows, holds min(nCuO, 70) particles (none for a negative request) and all of them are oxide |
| Simulation.ContactThreshold | app.js:276-278 | the contact threshold is positive for both kinds |
| Simulation.SurfaceBoost | app.js:283 | every pile particle keeps between 0.35 and all of the contact probability |
| Simulation.SpawnWater | app.js:298-303 | the emitted molecule is unused water; with draws in [0, 1) it starts within 20 across and 10 to 30 above the converted particle, with velocity components in [-1, 1) |
| Simulation.PileProgressStep | app.js:295 | turning one more oxide particle into metal in place is one more conversion and one less oxide, with every position kept |
| Simulation.GasProgressMiss | app.js:285-288 | a reactant molecule that only bounced keeps the live counts of both kinds |
| Simulation.GasProgressHit | app.js:291-306 | marking a reactant used and appending one unused water molecule lowers the live reactant by one and raises the live product by one |
| Simulation.GasProgressSkip | app.js:269 | skipping a used or product molecule changes nothing |
| Simulation.PileDone | app.js:295 | after k conversions the pile counts exactly k more metal |
| Simulation.PassFilter | app.js:313 | after the purge, no molecule is used, the reactant is k below and the product k above their live counts on entry, every unused product is kept, and the length is unchanged when nothing was used on entry |
| Simulation.CloudFresh | app.js:399 | the first loop of init creates n molecules, all unused reactant |
| Simulation.CloudPlacement | app.js:56-57 | with draws in [0, 1) and a large enough arena, every initial molecule starts at least 60 from the side and top walls and 220 above the bottom |
| Simulation.ReactantCloud | app.js:399 | the loop creates exactly the reference cloud, with none for a negative count |
| Simulation.ShuffleKeepsCounts | app.js:374-376 | moving and de-overlapping a gas without used molecules keeps its length and both counts, with every molecule still live |
| Simulation.Declump | app.js:406 | the de-clumping loop is `passes` whole reference sweeps in a row (Sweeps), and changes only the positions of unused molecules |
| Simulation.DeclumpedCloud | app.js:399-406 | the gas of init is 140 reference sweeps of the reference cloud of max(nH2, 0) molecules, all live reactant |
| Simulation.FreshGasCounts | app.js:399-406 | a fresh de-clumped cloud is all reactant and has no used molecule |
| Simulation.FreshPileCounts | app.js:401 | a fresh pile is all oxide |
| Simulation.World.constructor | app.js:26-35 | the globals start with empty lists, zero events, not paused, trap off, the default rate level, and the invariant holds |
| Simulation.World.Counts | app.js:318-324 | counts() gives reactant + product equal to the gas length, and oxide + metal equal to the pile size |
| Simulation.World.EventsBalance | app.js:316-324 | between steps the events equal the metal count and the water count; oxide left plus events equals the pile size; reactant left plus events equals the requested reactant; and oxide left plus events equals initial.CuO whenever the request is between 0 and 70 |
| Simulation.World.TryReact | app.js:272-309 | one molecule's search with its effect: the molecule ends as Searched says (velocity reversed once per oxide particle in contact up to the converted one); on success the converted particle is an oxide particle in contact whose draw is below p times its surface boost, every oxide particle before it fails that test, it becomes metal, one water molecule spawned at it is appended and the counter rises by one; on failure every oxide particle fails the test and nothing but the velocity changes; with no oxide left nothing changes |
| Simulation.SearchPile | app.js:272-291 | the inner search over a pile: the outcome is -1 or an oxide particle in contact whose draw is below p times its surface boost, every oxide particle before it (all of them for -1) fails that test, and the molecule ends as Searched says; with no oxide the molecule is unchanged |
| Simulation.ContactsNow | app.js:272-288 | the contacts counted against the pile of the moment equal those counted against the pile on entry with the earlier conversions |
| Simulation.SearchedNow | app.js:272-307 | a molecule's search read against the pile of the moment is its search read against the pile on entry with the earlier conversions |
| Simulation.SearchedStep | app.js:268-310 | writing a searched molecule back at the next index extends the prefix of searched molecules |
| Simulation.World.VisitMolecule | app.js:268-310 | one molecule of the outer loop: a used or product molecule records no outcome and is left as it is; a live reactant records its search outcome (SearchOutcome) and is written back as Searched says; the pass invariant advances by zero or one event, with the counter rising by the same amount |
| Simulation.World.InterfaceReactions | app.js:263-314 | the pass is ReactionPass: each original molecule's outcome is its first still-oxide particle whose draw succeeds (or none), k counts the successes, exactly the hit particles become metal, and the new gas is the unused searched original molecules in order (positions kept, velocity reversed once per contact, products untouched) followed by the k emitted water molecules in order; also the counter rises by k, no particle moves, no metal turns back, live reactant falls and product rises by k, no used molecule survives, no product is consumed, and without used molecules on entry the gas keeps its length |
| Simulation.World.ReactionLoop | app.js:268-310 | the outer loop, including the water appended on the way, visits every molecule once; it ends with the pass invariant over the whole list, every original molecule written back as Searched says, and the counter up by the number of successes |
| Simulation.World.SearchMolecule | app.js:271-307 | a live reactant molecule's search, written back: it records the first still-oxide particle whose draw succeeds, or -1, stores the searched molecule at its index and advances the pass invariant accordingly |
| Simulation.OutcomesUnique | app.js:268-310 | the outcomes of the searches are determined by the gas, the pile and the draws: two outcome records of the same molecules are equal |
| Simulation.ReactionPassUnique | app.js:263-314 | the reaction pass is a function of its inputs and the draws: which particle each molecule converts, the resulting pile, the resulting gas and the event count are unique |
| Simulation.HitsExtend | app.js:268-310 | recording one more search outcome keeps the earlier outcomes and counts the new one when it is a hit |
| Simulation.SearchHit | app.js:285-306 | after a successful search the pass invariant holds with one more event, the hit recorded, the particle converted, its water appended and the molecule stored as Searched says |
| Simulation.SearchMiss | app.js:285-288 | after a failed search the pass invariant holds with the same events, -1 recorded and the molecule stored as Searched says |
| Simulation.PassEnd | app.js:310-313 | the loop invariant after the last molecule, followed by the purge, is the whole ReactionPass (the unused searched molecules, then the water), with the count facts |
| Species.LiveAppendFresh | app.js:313 | purging a list whose tail has no used molecule keeps that tail intact at the end |
| Simulation.World.MoveAll | app.js:374 | every molecule is moved once, in place, as Move states (MovedAll), and kinds and marks are kept |
| Simulation.World.Step | app.js:365-383 | a paused step changes nothing; otherwise the phases run in order (StepPhases): every molecule moves with the speed of KineticParams(tc, rate level, trap mode), the moved gas is the input of the reference sweep, and the reaction pass with that probability runs on the swept gas and determines the new gas and pile; the invariant is kept, the events rise by k, the gas keeps its length, the pile keeps its size and positions, metal stays metal, and each event consumes one oxide particle and one reactant molecule |
| Simulation.World.Advance | app.js:372-379 | an unpaused step body with kinetic parameters kp: move with kp.speed, sweep, react with kp.p, in that order (StepPhases, which fixes the new gas and pile), keeping the invariant and the counts |
| Simulation.World.Populate | app.js:386-406 | init sets up an unpaused world with zero events and the requested counts recorded; the gas is 140 reference sweeps of the reference cloud of nH2 fresh reactant molecules, and the pile is the reference pile of min(nCuO, 70) oxide particles; the invariant holds |
| Simulation.World.Init | app.js:386-409 | init is Populate (the de-clumped cloud and the reference pile) followed by one step whose phases are StepPhases from that state with the current kinetic parameters, which fixes the gas and pile afterwards; the invariant holds and the step's events are accounted for against the requested reactant and the built pile |
| Simulation.World.CycleRate | app.js:434-436 | the R key moves to the next rate level cyclically and keeps the invariant |
| Simulation.World.ToggleTrap | app.js:433 | the T key flips the trap mode and keeps the invariant |
| Simulation.World.TogglePause | app.js:422-425 | the pause button flips the pause flag and keeps the invariant |

## Left out

- Drawing, the canvas and the DOM are not modelled. This covers the draw
  functions, `drawScene`, `diagOverlay`, slider and label wiring, the P key,
  the atoms toggle and `requestAnimationFrame`. They are rendering and I/O.
  The canvas size is a parameter of the world.
- `enforceStoichDefaultOnly` only writes label text and is not modelled.
- The `vib` phase of `SolidParticle` and its drawing jitter are cosmetic and
  are not modelled.
- `parseInt` and `parseFloat` of the sliders are not modelled. The requested
  counts and the temperature are parameters; a NaN count is not modelled,
  and a negative one gives an empty population.
- Floating point is not modelled:
  - Numbers are reals, so NaN, infinities and rounding do not arise.
  - `Math.sqrt` and `Math.exp` are function parameters.
  - At 0 K the script's `exp(-Infinity)` is modelled as 0.
- `Math.random()` is modelled as oracles of raw draws, without any
  distribution. The four draws made by the `GasMol` constructor for the
  water molecule at app.js:298 are overwritten at once at app.js:299-302, so
  only the last four are modelled.
- `Species.EnvelopeRadius`: the fallback radius 22 (app.js:65) is not
  modelled, because the datatype has only the two kinds and the fallback
  cannot be reached.
- Objects are modelled as values in sequences. The script mutates the
  molecules and particles in place, but no other reference to them exists.
  The loops write each updated value back at its index.
- Motion.Move: the reflection contract covers axes at least a diameter
  wide. In a narrower arena the second wall check overrides the first, and
  nothing is stated.
- Motion.ResolveOverlapsGas: no overlap-free postcondition for the whole
  pass, because the code does not guarantee one (see above).
  `Motion.PushSeparates` states the result for a single pair.
- Simulation.World.TryReact: the writes of a successful draw (the
  conversion, the water and the counter) are made once the search
  (`Simulation.SearchPile`) has returned, not just before the `break`.
  Nothing runs between the two points, so the order cannot be observed.
- Simulation.World.Populate: the script clears `gas` first, then fills it,
  then builds `solid`. The model computes the new gas and pile first and
  sets the globals together. No other code runs in between, so the
  difference cannot be observed.
- Simulation.World.Init: the method includes the first `step()`.
  Cancelling the previous animation frame and the button label are left
  out.
- Simulation.World.Step: the re-scheduling of the next frame is not
  modelled.
