# Mizu: the atom simulation, modelled in Dafny

Mizu is a canvas animation. Hydrogen (H) and oxygen (O) atoms drift about. Two free H that
touch become a merged H, drawn as "H2". An O that touches an H2 turns into a falling water droplet
(H2o), and both of the consumed atoms are replaced by new ones. Droplets fall until they pass
the bottom edge and are then removed.

The repository has two simulators:

- `MizuSimulator` (js/Mizu.js), with the atom classes of js/Atom.js (copied near-verbatim
  into js/Mizu.js).
- The older `H2oSimulator` (js/h2o.js), which has its own atom classes.

With the drawing stripped away, what is left is bookkeeping over three lists (`h`, `o`, `h2o`)
and two small state machines per atom. This project models that bookkeeping and proves what it
guarantees.

## Layout

- `platform.dfy` (`Platform`): what the code takes from its host, given as parameters.
  - `Host` holds `Math.sqrt`, `cos`, `sin` and `measureText` as functions.
  - `Random` holds `Math.random` as a stream of draws in [0, 1) and a count of draws made.
- `wrappers.dfy` (`Wrappers`): `Option` and `Result`.
- `arrays.dfy` (`Arrays`): `indexOf` by object identity, and `splice(i, 1)`.
- `particle.dfy` (`Particles`): the value rules of the atoms, over a `Particle` datatype.
  - the hit test, on squared distances;
  - the impulse, the speed limit and the wrap-around of `updatePosition`;
  - the fall and expiry of a droplet;
  - the H flags `isMerged` / `#isH2Rendered`;
  - names, scales, and the drawing properties that matter to the simulation (position, size, radius).
- `atom.dfy` (`Atoms`): the atom class of js/Atom.js and its copy in js/Mizu.js. Every method is
  proved to change the fields as the value rules say. `Factory` models `AtomFactory.factory`.
- `mizu_spec.dfy` (`MizuSpec`): one frame of `MizuSimulator` as pure functions over a `World`.
  A `World` holds the three lists and the number of random draws made so far.
- `mizu.dfy` (`Mizu`): the class `MizuSimulator`.
  - Its `h`, `o` and `h2o` fields are lists of `Atom` objects.
  - The methods write slots, push and splice the way the source does, with its loops.
  - Each method is proved to compute the matching `MizuSpec` function. It also states which objects it keeps and which are new.
- `mizu_props.dfy` (`MizuProps`): what the three passes guarantee:
  - population sizes;
  - which slots change, and to what;
  - merges are never undone;
  - every droplet falls exactly once, and exactly the expired ones are removed, the rest in order;
  - every list keeps atoms of its own kind.
- `mizu_scenario.dfy` (`MizuScenario`): the two-H-one-O frame from tests/Mizu.test.js.
- `legacy_atom.dfy` (`LegacyAtoms`): the atom classes of js/h2o.js. They differ from the others in two places:
  - Once merged, an H is relabelled by `reRender`.
  - A droplet is smaller and falls by its own rule.
- `legacy_spec.dfy` (`LegacySpec`): one frame of `H2oSimulator` as pure functions. A frame can throw
  part-way, so its result is an `Outcome`: `Completed` or `Threw`, each with the lists as they are at that point.
- `legacy_sim.dfy` (`LegacySimulation`): the class `H2oSimulator`, with each method proved against `LegacySpec`.
- `legacy_props.dfy` (`LegacyProps`): what the older passes guarantee, and the three ways they differ
  (see Findings).

## Modelling decisions

- **Coordinates.** Coordinates and sizes are `real`.
- **isHit.** `isHit` compares squared distances. `HitsIsDistanceTest` proves this is the source's
  `sqrt(dx² + dy²) < r + tr` whenever the host's `sqrt` returns the non-negative root.
- **Random draws.**
  - Each call of `Math.random` is one draw from the stream. Every model function that draws says which draw it uses.
  - `getColor`'s hex string is not modelled, but its `Math.random` call is counted as a draw.
  - So `createAtom('H')` and `createAtom('O')` use three draws: x, y and the colour.
  - A merged H keeps its colour and draws nothing for it.
- **Atom state.** An atom's state is its `View()`, a `Particle` value. A simulator's state is `World(Views(h), Views(o), Views(h2o), drawn)`.
  - Each method's `ensures` ties the new state to the specification function of the old one.
  - Each method also states which list members are the same objects as before and which are new.
- **Errors.**
  - `createAtom` / `factory` with an unknown name fail with `UnknownName`. In the source the code goes on to use an undefined `atom` and throws.
  - `'H2o'` without a coordinate fails with `NoCoordinate`. This happens after the width has been drawn, because the source throws only when it reads `coordinate.x`.
- **Details the model takes from the code.**
  - A droplet's radius is never set, so `r` stays 0. Of its drawing properties only the width,
    which is also its height, is drawn at random.
  - A droplet expires once `y >= sh`, so a droplet with `y` exactly equal to the height is already expired.
  - `MizuSimulator`'s renderH stops at the first hit (`break`, js/Mizu.js:562). The older renderH
    keeps scanning after a hit (`continue`, js/h2o.js:446).
  - An O in the older renderO pass throws on its second hit. It does not spawn a second droplet.
  - tests/Mizu.test.js calls an `add` method that neither simulator has; where a test and the code
    disagree, the model follows the code.

## Model

| member | source | states |
|---|---|---|
| Particles.Blank | js/Atom.js:66-69 | a new atom has the kind it is made as, with consistent flags |
| Particles.KindOf | js/Atom.js:424-433 | exactly the names 'H', 'O' and 'H2o' denote a kind; any other name gives none |
| Particles.KindOfKindName | js/Atom.js:424-433 | the name of a kind maps back to that kind, and a name maps only to the kind it spells |
| Particles.Name | js/Atom.js:258-260 | getName is 'H2' iff a merged H, 'H' iff a free H, 'O' for an O, '' for a droplet |
| Particles.AtomScale | js/Atom.js:130-136 | an atom's scale is 1.0 iff the canvas is narrower than 768, else 1.2 |
| Particles.SimulatorScale | js/Mizu.js:659-668 | getScale, the same in both simulators (also js/h2o.js:532-541): 1.0 iff the canvas is narrower than 768, 1.5 iff it is at least 1280 wide, 1.2 in between |
| Particles.ScalesMonotone | js/Mizu.js:659-668 | both scales grow with the width, agree below 1280, and the simulator's is never smaller |
| Particles.SquaresOrdered | js/Atom.js:200-203 | on non-negative numbers, comparing squares is comparing the numbers |
| Particles.Hits | js/Atom.js:197-204 | isHit on coordinates: the squared distance between the centres is below the squared sum of the radii, and that sum is positive |
| Particles.HitsAtom | js/Atom.js:197-204 | `a.isHit(t.x, t.y, t.r)`: Hits with a's centre and radius against t's |
| Atoms.Atom.IsHit | js/Atom.js:197-204 | the atom's isHit: Hits on its own x, y, r and the target's |
| LegacyAtoms.Atom.IsHit | js/h2o.js:146-153 | the legacy atom's isHit: the same Hits test |
| Particles.HitsIsDistanceTest | js/Atom.js:197-204 | the squared-distance hit test holds iff sqrt(dx²+dy²) < r + tr, for a sqrt that returns the root |
| Particles.HitsSymmetric | js/Atom.js:197-204 | swapping the two atoms' roles gives the same answer |
| Particles.ClampLimitsSpeed | js/Atom.js:161-166 | a velocity over 1.05 is rescaled along its direction to exactly 1.05; one within the limit is unchanged |
| Particles.Speed | js/Atom.js:162 | the current speed is the host's sqrt of vx² + vy² |
| Particles.Impulse | js/Atom.js:154-159 | the velocity plus 0.075 times (cos, sin) of the angle 2πu, for the draw u |
| Particles.Clamp | js/Atom.js:161-166 | a velocity whose speed exceeds 1.05 is divided by that speed and multiplied by 1.05; otherwise it is kept |
| Particles.Wrap | js/Atom.js:171-186 | one axis of the wrap, the two ifs in order: past bound + size/2 it goes to -size/2, then if pos + size < 0 it goes to bound + size/2 |
| Particles.WrapRegions | js/Atom.js:171-186 | after the wrap, -size <= pos <= bound + size/2; past the far edge gives -size/2, past the near edge gives bound + size/2, otherwise unchanged |
| Particles.Drift | js/Atom.js:152-187 | a drift changes only position and velocity |
| Particles.DriftBounds | js/Atom.js:168-186 | after updatePosition, -w <= x <= sw + w/2 and -h <= y <= sh + h/2 |
| Particles.DriftSpeed | js/Atom.js:154-166 | the new velocity is the impulsed one, clamped to speed 1.05 along its own direction |
| Particles.Fall | js/Atom.js:397-405 | a fall changes only position and the expiry flag |
| Particles.FallExpires | js/Atom.js:397-405 | a droplet falls by w/10 (down, for w > 0); it expires iff it had expired or y >= sh; expiry is never cleared |
| Particles.DropletExpiryExamples | tests/Atom.test.js:107-121 | on a 100 x 100 canvas a droplet made at (0, 0) has not expired after a fall, one made at (0, 500) has |
| Particles.Survivors | js/Mizu.js:618-621 | the kept droplets are no more than the droplets given |
| Particles.SurvivorsFilter | js/Mizu.js:618-621 | no expired droplet is kept, each kept one was given, every unexpired one is kept |
| Particles.SurvivorsSnoc | js/Mizu.js:613-621 | one more droplet at the end is kept iff it has not expired |
| Particles.SurvivorsCons | js/Mizu.js:613-621 | one more droplet at the front is kept iff it has not expired |
| Particles.MovedKeepsFlags | js/Atom.js:152-187 | updatePosition keeps kind, size and the H flags, and never clears an expiry |
| Particles.Moved | js/Mizu.js:152-187 | updatePosition dispatched on the kind: a droplet falls (H2o's override), H and O drift |
| Particles.Labelled | js/Atom.js:76-105 | initializeDrawingProperties of an H or O moves it to the coordinate and sets w = h = 2r, changing nothing else |
| Particles.DropletWidth | js/Atom.js:365 | a droplet's width lies in [18·scale, 28·scale) |
| Particles.Droplet | js/Atom.js:361-392 | a droplet moves to the coordinate and takes the drawn width as width and height, nothing else |
| Particles.InitializedPlaces | js/Atom.js:97-102 | every kind copies the coordinate into x, y and sets w = h; H and O set r = w/2; a droplet's width is in range; flags stay consistent |
| Particles.Initialized | js/Atom.js:76-105 | initializeDrawingProperties dispatched on the kind: a droplet gets its drawn width (H2o's override), H and O are labelled by their name |
| Particles.InitDraws | js/Atom.js:76-78 | the draws initializeDrawingProperties makes: none for a merged H (its getColor keeps the colour), one otherwise |
| Particles.Rendered | js/Atom.js:300-307 | H.render: a merged H whose `#isH2Rendered` is clear sets it and is labelled again at its own position; any other atom is unchanged |
| Particles.RenderedOnce | js/Atom.js:300-307 | render changes an atom only if it is a merged H not yet relabelled, a second render changes nothing, position and flags other than `#isH2Rendered` are kept, and `#isH2Rendered ⇒ #isMerged` holds after |
| Particles.Merge | js/Atom.js:312-314 | markAsMerged sets the merge flag and changes nothing else |
| Particles.MergeIdempotent | js/Atom.js:312-322 | markAsMerged is idempotent, and a merged H is named 'H2' |
| Atoms.Atom.View | js/Atom.js:4-58 | the value of an atom has the atom's kind |
| Atoms.Atom.constructor | js/Atom.js:66-69 | a new atom is blank, on the given canvas size |
| Atoms.Atom.MarkAsMerged | js/Atom.js:312-314 | the merge flag is set; nothing else changes |
| Atoms.Atom.InitializeDrawingProperties | js/Atom.js:76-105 | the fields become the initialized value; one draw for the colour of a free H or an O, one for a droplet's width, none for a merged H |
| Atoms.Atom.UpdatePosition | js/Atom.js:152-187 | H and O drift, a droplet falls, on one draw |
| Atoms.Atom.DriftStep | js/Atom.js:152-187 | the fields become the drifted value, on one draw |
| Atoms.Atom.Accelerate | js/Atom.js:154-166 | the velocity becomes the impulsed one, clamped |
| Atoms.Atom.FallStep | js/Atom.js:397-405 | the fields become the fallen value, on one draw |
| Atoms.Atom.Render | js/Atom.js:300-307 | the fields become the rendered value; no draw |
| Atoms.Factory | js/Atom.js:424-433 | an unknown name gives none; a known one gives a new blank atom of that kind on the given canvas |
| Platform.Random.constructor | js/Mizu.js:648 | a new random source follows the given stream and has made no draw |
| Platform.Random.Next | js/Mizu.js:648 | Math.random returns the next draw of the stream and counts it |
| Arrays.IndexOf | js/Mizu.js:587 | indexOf is -1 iff absent, otherwise the first slot holding the object |
| Arrays.IndexOfDistinct | js/h2o.js:442 | in a list without repeats, indexOf of a slot's object is that slot |
| Arrays.Splice | js/Mizu.js:620 | splice(i, 1) keeps the slots before i and shifts the later ones down by one |
| MizuSpec.Spawn | js/Mizu.js:632-651 | createAtom('H'/'O') is a new free atom of that kind at (cw·u, ch·u') with consistent flags |
| MizuSpec.SpawnDroplet | js/Mizu.js:641-644 | createAtom('H2o', c) is a new unexpired droplet at c, width in [18·scale, 28·scale) |
| MizuSpec.Spawns | js/Mizu.js:509-516 | n createAtom calls give n atoms |
| MizuSpec.SpawnsSnoc | js/Mizu.js:510-515 | one more createAtom appends the atom made on the next three draws |
| MizuSpec.SpawnsAt | js/Mizu.js:510-515 | the t-th atom made is the one made from draw k + 3t |
| MizuSpec.PushSpawnsSnoc | js/Mizu.js:510-515 | one more loop turn of init pushes one new atom onto its own list |
| MizuSpec.PushSpawns | js/Mizu.js:510-515 | one loop of init: n atoms made by consecutive createAtom calls are appended to the list of their kind, on 3n draws |
| MizuSpec.Init | js/Mizu.js:509-516 | init(n, m): the H loop, then the O loop; droplets untouched |
| MizuSpec.Free | js/Mizu.js:549-554 | the partner guard of renderH: the target is not merged and the H hits it |
| MizuSpec.HPass | js/Mizu.js:539-566 | renderH from slot i on: HVisit at i, then the pass from i + 1, until the end of h |
| MizuSpec.HVisit | js/Mizu.js:540-564 | one turn of renderH keeps the number of H |
| MizuSpec.HDrifted | js/Mizu.js:541-543 | the drift of one H keeps the number of H |
| MizuSpec.Partner | js/Mizu.js:549-564 | the partner scan keeps the number of H |
| MizuSpec.OPassStep | js/Mizu.js:576-604 | renderO from slot idx is the visit of idx followed by renderO from idx + 1 |
| MizuSpec.OPass | js/Mizu.js:575-605 | renderO from slot idx on: OVisit at idx, then the pass from idx + 1, until the end of o |
| MizuSpec.OVisit | js/Mizu.js:576-603 | one turn of renderO keeps the number of O |
| MizuSpec.ODrifted | js/Mizu.js:577-578 | the drift of one O keeps the number of O |
| MizuSpec.Consume | js/Mizu.js:580-603 | the inner loop of renderO keeps the number of O |
| MizuSpec.Absorb | js/Mizu.js:585-602 | one hit keeps the numbers of H and O |
| MizuSpec.DripAfterVisit | js/Mizu.js:613-622 | renderH2o from slot n is the visit of n - 1 followed by renderH2o from n - 1 |
| MizuSpec.Drip | js/Mizu.js:612-623 | renderH2o over the first i droplets, from the last down |
| MizuSpec.DripFrom | js/Mizu.js:613 | the reverse loop's test: at i = 0 nothing is left, otherwise slot i - 1 is next |
| MizuSpec.DripBelow | js/Mizu.js:613-622 | one loop turn: DripVisit at slot i, then the loop over the slots below i |
| MizuSpec.DripVisit | js/Mizu.js:614-621 | one visit of renderH2o at slot i leaves at least i droplets |
| MizuSpec.Fallen | js/Mizu.js:614-616 | the fall of one droplet keeps the number of droplets |
| MizuSpec.Frame | js/Mizu.js:522-532 | renderFrame: HPass from slot 0, then OPass from slot 0, then Drip over every droplet there is then |
| MizuSpec.Run | js/Mizu.js:674-679 | n frames in a row, as the animation loop calls renderFrame |
| Mizu.MizuSimulator.constructor | js/Mizu.js:487-501 | a new simulator has all three lists empty |
| Mizu.MizuSimulator.CreateAtom | js/Mizu.js:632-651 | an unknown name fails without a draw; 'H2o' without a coordinate fails after one draw; otherwise a new atom, equal to Spawn/SpawnDroplet on the current draws |
| Mizu.MizuSimulator.Init | js/Mizu.js:509-516 | init(n, m) computes Init: n new H then m new O appended, droplets untouched |
| Mizu.MizuSimulator.InitH | js/Mizu.js:510-512 | the first loop of init appends n new H |
| Mizu.MizuSimulator.InitO | js/Mizu.js:513-515 | the second loop of init appends m new O |
| Mizu.MizuSimulator.MakeAtom | js/Mizu.js:632-650 | createAtom('H'/'O') gives a new atom equal to Spawn, on three draws |
| Mizu.MizuSimulator.MakeDroplet | js/Mizu.js:641-644 | createAtom('H2o', c) gives a new droplet equal to SpawnDroplet, on one draw |
| Mizu.MizuSimulator.PushH | js/Mizu.js:511 | one new H is pushed and nothing else changes |
| Mizu.MizuSimulator.PushO | js/Mizu.js:514 | one new O is pushed and nothing else changes |
| Mizu.MizuSimulator.MoveH | js/Mizu.js:541-543 | the H at slot i drifts and is drawn |
| Mizu.MizuSimulator.MarkH | js/Mizu.js:555-556 | the H at slot i merges and is drawn (relabelled once); nothing else changes |
| Mizu.MizuSimulator.ReplaceH | js/Mizu.js:559-560 | slot j gets a new H object and no other slot changes |
| Mizu.MizuSimulator.PairH | js/Mizu.js:549-563 | the loop computes Partner; the only new objects are in changed slots |
| Mizu.MizuSimulator.VisitH | js/Mizu.js:540-564 | one outer turn computes HVisit and leaves what is left of renderH to do unchanged |
| Mizu.MizuSimulator.RenderH | js/Mizu.js:539-566 | renderH computes HPass; o and h2o are the same lists |
| Mizu.MizuSimulator.MoveO | js/Mizu.js:577-578 | the O at slot idx drifts |
| Mizu.MizuSimulator.ReplaceO | js/Mizu.js:590-591 | slot idx gets a new O object and no other slot changes |
| Mizu.MizuSimulator.PushDroplet | js/Mizu.js:601 | one new droplet, equal to SpawnDroplet at c, is pushed |
| Mizu.MizuSimulator.RefillO | js/Mizu.js:587-592 | the indexOf guard: the O is replaced iff it is still in its slot, otherwise nothing changes |
| Mizu.MizuSimulator.RefillH | js/Mizu.js:595-600 | slot m of h gets a new H |
| Mizu.MizuSimulator.AbsorbAt | js/Mizu.js:585-602 | one hit computes Absorb; the droplet list grows by one new object |
| Mizu.MizuSimulator.ConsumeO | js/Mizu.js:580-603 | the inner loop computes Consume; droplets are only appended, all new |
| Mizu.MizuSimulator.VisitO | js/Mizu.js:576-603 | one outer turn computes OVisit |
| Mizu.MizuSimulator.RenderO | js/Mizu.js:575-605 | renderO computes OPass; droplets are only appended, all new |
| Mizu.MizuSimulator.MoveDroplet | js/Mizu.js:614-616 | the droplet at slot i falls |
| Mizu.MizuSimulator.RemoveDroplet | js/Mizu.js:618-621 | splice(i, 1) removes exactly slot i |
| Mizu.MizuSimulator.VisitH2o | js/Mizu.js:614-621 | one turn of the reverse loop computes DripVisit, leaving the slots below alone |
| Mizu.MizuSimulator.RenderH2o | js/Mizu.js:612-623 | renderH2o computes Drip over every droplet present at entry |
| Mizu.MizuSimulator.RenderFrame | js/Mizu.js:522-532 | a frame is renderH, renderO, renderH2o in that order (Frame) |
| MizuProps.SpawnInCanvas | js/Mizu.js:647-649 | createAtom('H'/'O') places the atom inside [0, cw) x [0, ch) |
| MizuProps.InitLists | js/Mizu.js:509-516 | init(n, m) appends n H and m O made from consecutive draws, droplets untouched |
| MizuProps.InitWellFormed | js/Mizu.js:509-516 | init keeps each list a list of its own kind with consistent flags |
| MizuProps.AllOfJoin | js/Mizu.js:509-516 | joining two lists of one kind gives a list of that kind |
| MizuProps.PartnerIsFirstHit | js/Mizu.js:549-563 | nothing changes iff no H from j on is free and hit; otherwise the first such one, and only it, gets a new H, and the H at i merges |
| MizuProps.HVisitShape | js/Mizu.js:540-564 | one turn of renderH keeps o and h2o, makes 1 to 4 draws, never undoes the H's merge or relabelling, and any other slot that changes is a later free H replaced by the new H on the next draws |
| MizuProps.HPassShape | js/Mizu.js:539-566 | renderH keeps the number of H, o, h2o and the slots before i, makes at least one draw per H, never undoes a merge or a relabelling, and keeps every list well formed |
| MizuProps.MergedCountUnmerge | js/Mizu.js:595-600 | replacing an H2 by a free H lowers the number of H2 by one |
| MizuProps.HitCountFrame | js/Mizu.js:580-585 | the hits from slot m on depend only on the slots from m on |
| MizuProps.AbsorbShape | js/Mizu.js:585-602 | a hit gives slot m a new free H, gives the O's slot a new O unless already replaced, and appends one droplet at the O |
| MizuProps.ConsumeSlots | js/Mizu.js:580-603 | every merged H the O hits is replaced by a free H, no other H slot changes |
| MizuProps.ConsumeReplacesOnce | js/Mizu.js:586-592 | the O's slot gets a new O on the first hit only |
| MizuProps.ConsumeDroplets | js/Mizu.js:601 | one unexpired droplet at the O is appended per hit, behind the ones before |
| MizuProps.ConsumeConserves | js/Mizu.js:585-602 | droplets added equal H2 consumed |
| MizuProps.OVisitShape | js/Mizu.js:576-603 | one turn of renderO keeps lengths, free H and other O; appends droplets, one per H2 consumed |
| MizuProps.OPassShape | js/Mizu.js:575-605 | renderO keeps the numbers of H and O and every free H; droplets are appended, one per H2 consumed |
| MizuProps.OPassWellFormed | js/Mizu.js:575-605 | renderO keeps each list a list of its own kind |
| MizuProps.Falls | js/Mizu.js:613-616 | every droplet falls once, so their number is kept |
| MizuProps.FallsSnoc | js/Mizu.js:613-616 | the last droplet falls first, on the first draw |
| MizuProps.DripVisitParts | js/Mizu.js:614-621 | one visit replaces that droplet by its fall, or removes it if it has expired |
| MizuProps.DripFiltersStep | js/Mizu.js:613-622 | the reverse loop's invariant survives one turn |
| MizuProps.DripFilters | js/Mizu.js:612-623 | over the first i droplets, each falls once, exactly the expired are removed, the rest keep their order, later slots are untouched |
| MizuProps.FallsKeepKind | js/Mizu.js:615 | falling keeps droplets droplets with consistent flags |
| MizuProps.SurvivorsKeepKind | js/Mizu.js:618-621 | removing expired droplets keeps a list of droplets |
| MizuProps.DripAll | js/Mizu.js:612-623 | renderH2o: every droplet falls exactly once, exactly the expired ones go, no remaining droplet is expired, h and o are untouched |
| MizuProps.FrameShape | js/Mizu.js:522-532 | a frame keeps the numbers of H and O, leaves no expired droplet, keeps every list well formed |
| MizuProps.RunShape | js/Mizu.js:526-528 | any number of frames keeps the numbers of H and O and well-formedness |
| MizuScenario.AtOrigin | tests/Mizu.test.js:52-58 | an atom of the test's start: at the origin, at rest, free |
| MizuScenario.Start | tests/Mizu.test.js:50-57 | the test's start: two H and one O at the origin, at rest and free, no droplets |
| MizuScenario.DriftFromRest | js/Mizu.js:152-187 | an atom at rest at the origin moves by at most 0.075 per axis in one drift |
| MizuScenario.NearHits | js/Mizu.js:197-204 | two atoms within 1 pixel per axis with radii of at least 2 hit |
| MizuScenario.ScenarioH | js/Mizu.js:539-566 | with two H and an O at the origin, renderH merges slot 0 into 'H2' and replaces slot 1 by a free H |
| MizuScenario.ScenarioO | js/Mizu.js:575-605 | then renderO makes exactly one droplet, keeping one O and two H |
| MizuScenario.ScenarioDrip | js/Mizu.js:612-623 | then renderH2o keeps that droplet |
| MizuScenario.TwoHydrogensAndAnOxygen | tests/Mizu.test.js:50-72 | the frame ends with two H, one O and one droplet, and the lower-index H is the one named 'H2' |
| LegacyAtoms.LegacyDropletWidth | js/h2o.js:294 | a legacy droplet's width is in [15·scale, 25·scale) |
| LegacyAtoms.LegacyDroplet | js/h2o.js:290-323 | a legacy droplet moves to the coordinate and takes the drawn width as width and height, nothing else |
| LegacyAtoms.LegacyFall | js/h2o.js:328-337 | a legacy fall changes only position and the delete flag |
| LegacyAtoms.LegacyFallDescends | js/h2o.js:328-337 | with cos, sin in [-1, 1], a legacy droplet falls 1 to 3 pixels, moves at most 1 sideways, is flagged iff it was or y >= sh, and is never unflagged |
| LegacyAtoms.LegacyMoved | js/h2o.js:105-136 | the legacy updatePosition dispatched on the kind: a droplet falls by the legacy rule, H and O drift as in js/Atom.js |
| LegacyAtoms.LegacyInitialized | js/h2o.js:25-55 | the legacy initializeDrawingProperties dispatched on the kind: a droplet gets the legacy width, H and O are labelled |
| LegacyAtoms.Relabelled | js/h2o.js:241-245 | reRender keeps position, kind and the merge flag |
| LegacyAtoms.RelabelledStable | js/h2o.js:241-245 | relabelling a merged H again changes nothing; a merged H keeps its position and is named 'H2' |
| LegacyAtoms.Atom.View | js/h2o.js:4-18 | the value of a legacy atom has its kind and never the H2 label flag |
| LegacyAtoms.Atom.constructor | js/h2o.js:11-18 | a new legacy atom is blank, on the given canvas size |
| LegacyAtoms.Atom.InitializeDrawingProperties | js/h2o.js:25-55 | the fields become the legacy initialized value, with the draws it makes |
| LegacyAtoms.Atom.UpdatePosition | js/h2o.js:105-136 | H and O drift, a droplet falls by the legacy rule, on one draw |
| LegacyAtoms.Atom.DriftStep | js/h2o.js:105-136 | the fields become the drifted value, on one draw |
| LegacyAtoms.Atom.Accelerate | js/h2o.js:107-119 | the velocity becomes the impulsed one, clamped |
| LegacyAtoms.Atom.FallStep | js/h2o.js:328-337 | the fields become the legacy fallen value, on one draw |
| LegacyAtoms.Atom.ReRender | js/h2o.js:241-245 | the fields become the relabelled value |
| LegacySpec.SpawnDroplet | js/h2o.js:517-520 | factory('H2o', c) is a new unflagged droplet at c, width in [15·scale, 25·scale) |
| LegacySpec.HVisit | js/h2o.js:425-448 | one turn of renderH keeps the number of H |
| LegacySpec.HDrifted | js/h2o.js:426-427 | the drift of one H keeps the number of H |
| LegacySpec.HPass | js/h2o.js:424-450 | renderH from slot i on: the legacy HVisit at i, then the pass from i + 1, until the end of h |
| LegacySpec.Partners | js/h2o.js:433-448 | the inner loop of renderH keeps the number of H |
| LegacySpec.Probe | js/h2o.js:434-447 | one inner turn keeps the number of H |
| LegacySpec.Pair | js/h2o.js:437-446 | one hit keeps the number of H |
| LegacySpec.Marked | js/h2o.js:438-439 | merging and relabelling keeps the number of H |
| LegacySpec.RenewH | js/h2o.js:442-444 | replacing slot k keeps the number of H |
| LegacySpec.OVisit | js/h2o.js:460-478 | one turn of renderO keeps the number of O, whether it throws or not |
| LegacySpec.OPass | js/h2o.js:459-480 | renderO from slot idx on: OVisit at idx, then the pass from idx + 1; a throw ends the pass with the lists as they are |
| LegacySpec.Consume | js/h2o.js:464-478 | the inner loop of renderO keeps the number of O |
| LegacySpec.Absorb | js/h2o.js:465-477 | one hit keeps the numbers of H and O |
| LegacySpec.RenewO | js/h2o.js:467-469 | replacing the O's slot keeps the numbers of H and O |
| LegacySpec.Dropped | js/h2o.js:476 | pushing a droplet adds exactly one droplet |
| LegacySpec.Fallen | js/h2o.js:489-490 | the fall of one droplet keeps the number of droplets |
| LegacySpec.Purge | js/h2o.js:492-497 | the inner loop of renderH2o never adds droplets |
| LegacySpec.Drip | js/h2o.js:487-499 | renderH2o's live `for…of` from position k: the droplet at k falls, flagged droplets are purged, and the loop goes on at k + 1 of the list as it now is |
| LegacySpec.Frame | js/h2o.js:410-417 | start(): HPass, then OPass; a throw ends the frame, otherwise Drip from position 0 follows |
| LegacySimulation.H2oSimulator.constructor | js/h2o.js:376-389 | a new simulator has all three lists empty |
| LegacySimulation.H2oSimulator.Factory | js/h2o.js:508-525 | an unknown name fails without a draw; 'H2o' without a coordinate fails after one draw; otherwise a new atom equal to Spawn / the legacy droplet |
| LegacySimulation.H2oSimulator.MakeAtom | js/h2o.js:508-524 | factory('H'/'O') gives a new atom equal to Spawn, on three draws |
| LegacySimulation.H2oSimulator.MakeDroplet | js/h2o.js:517-520 | factory('H2o', c) gives a new legacy droplet, on one draw |
| LegacySimulation.H2oSimulator.Init | js/h2o.js:397-404 | init(n, m) appends n new H then m new O, droplets untouched |
| LegacySimulation.H2oSimulator.InitH | js/h2o.js:398-400 | the first loop appends n new H |
| LegacySimulation.H2oSimulator.InitO | js/h2o.js:401-403 | the second loop appends m new O |
| LegacySimulation.H2oSimulator.PushH | js/h2o.js:399 | one new H is pushed, nothing else changes |
| LegacySimulation.H2oSimulator.PushO | js/h2o.js:402 | one new O is pushed, nothing else changes |
| LegacySimulation.H2oSimulator.MoveH | js/h2o.js:426-427 | the H at slot i drifts |
| LegacySimulation.H2oSimulator.MarkH | js/h2o.js:438-439 | the H at slot i merges and is relabelled |
| LegacySimulation.H2oSimulator.ReplaceH | js/h2o.js:442-444 | slot j gets a new H object, no other slot changes |
| LegacySimulation.H2oSimulator.PairAt | js/h2o.js:437-446 | one hit computes Pair; slot j holds a new H, every other slot the same object |
| LegacySimulation.H2oSimulator.ProbeTarget | js/h2o.js:434-447 | one inner turn computes Probe; only slot j may hold a new object |
| LegacySimulation.H2oSimulator.ScanPartners | js/h2o.js:433-448 | the inner loop computes Partners; every object in h afterwards was there before or is new |
| LegacySimulation.H2oSimulator.VisitH | js/h2o.js:425-448 | one outer turn computes HVisit |
| LegacySimulation.H2oSimulator.RenderH | js/h2o.js:424-450 | renderH computes the legacy HPass |
| LegacySimulation.H2oSimulator.MoveO | js/h2o.js:461-462 | the O at slot idx drifts |
| LegacySimulation.H2oSimulator.ReplaceO | js/h2o.js:467-469 | slot idx gets a new O object, no other slot changes |
| LegacySimulation.H2oSimulator.RefillH | js/h2o.js:472-474 | the H2's slot, found by indexOf, gets a new H |
| LegacySimulation.H2oSimulator.PushDroplet | js/h2o.js:476 | one new legacy droplet at c is pushed |
| LegacySimulation.H2oSimulator.RefillO | js/h2o.js:467-469 | the O's slot, found by indexOf, gets a new O and the old O leaves the list |
| LegacySimulation.H2oSimulator.AbsorbAt | js/h2o.js:465-477 | the first hit computes Absorb; one new droplet is appended |
| LegacySimulation.H2oSimulator.ConsumeO | js/h2o.js:464-478 | the inner loop computes Consume, throwing exactly when it does |
| LegacySimulation.H2oSimulator.VisitO | js/h2o.js:460-478 | one outer turn computes OVisit, throwing exactly when it does |
| LegacySimulation.H2oSimulator.RenderO | js/h2o.js:459-480 | renderO computes OPass, throwing exactly when it does |
| LegacySimulation.H2oSimulator.MoveDroplet | js/h2o.js:489-490 | the droplet at slot k falls by the legacy rule |
| LegacySimulation.H2oSimulator.RemoveDroplet | js/h2o.js:494 | splice(indexOf, 1) removes exactly that slot |
| LegacySimulation.H2oSimulator.PurgeAt | js/h2o.js:493-496 | one turn over the reversed copy removes slot t - 1 iff its droplet is flagged, so the purged part grows by one slot |
| LegacySimulation.PurgeStep | js/h2o.js:492-496 | splicing out slot t - 1 iff it is flagged turns a list purged from slot t on into one purged from slot t - 1 on |
| LegacySimulation.H2oSimulator.PurgeDroplets | js/h2o.js:492-497 | the inner loop computes Purge: exactly the flagged droplets go, the rest keep their order |
| LegacySimulation.H2oSimulator.VisitH2o | js/h2o.js:489-497 | one turn of the live loop: a fall, then the purge |
| LegacySimulation.H2oSimulator.RenderH2o | js/h2o.js:487-499 | renderH2o computes Drip from position 0 of the live list |
| LegacySimulation.H2oSimulator.Start | js/h2o.js:410-417 | start computes Frame: renderH, renderO, and renderH2o unless renderO threw |
| LegacyProps.PartnersAfterMerge | js/h2o.js:433-447 | once the H is merged, every free H it hits from slot j on is replaced, on consecutive draws; no other slot changes |
| LegacyProps.PartnersSkip | js/h2o.js:434-436 | targets the H does not take are passed over |
| LegacyProps.PartnersNoHit | js/h2o.js:433-448 | with no free H in reach the inner loop changes nothing |
| LegacyProps.PartnersFirstHit | js/h2o.js:437-446 | at the first free hit the H merges and is relabelled 'H2' in place, that slot gets a new H, and the scan goes on after it |
| LegacyProps.TwoPartnersTaken | js/h2o.js:446 | an H that hits two free H in one scan takes both, each replaced by a new H |
| LegacyProps.ProbeShape | js/h2o.js:434-447 | one inner turn changes at most slots i and j, slot j only from a free H to a new H; merges kept |
| LegacyProps.PartnersShape | js/h2o.js:433-448 | the inner loop keeps o, h2o and the slots before j other than i; merges kept |
| LegacyProps.HPassShape | js/h2o.js:424-450 | renderH keeps the number of H, o and h2o, the slots before i, every merge, and well-formedness |
| LegacyProps.FirstHit | js/h2o.js:464-465 | the first H2 in the filtered list that the O hits |
| LegacyProps.AbsorbShape | js/h2o.js:465-476 | a first hit gives the O's slot a new O, the H2's slot a new H and appends one droplet at the O, on 2·3 + 1 draws |
| LegacyProps.ConsumeResult | js/h2o.js:464-478 | with no hit nothing changes; otherwise the first hit is absorbed and the loop completes iff it was the only hit, else throws at the second |
| LegacyProps.SecondHitThrows | js/h2o.js:467-468 | an O within reach of two H2 throws at the second, with one droplet made and the second H2 still there |
| LegacyProps.AbsorbHitsAfter | js/h2o.js:464-465 | the hits are the first one and those after it |
| LegacyProps.OVisitShape | js/h2o.js:460-478 | one turn of renderO, completed or thrown, keeps lengths and the other O, changes only merged H, adds at most one droplet behind the old ones, conserves droplets plus H2, and keeps well-formedness |
| LegacyProps.OPassShape | js/h2o.js:459-480 | renderO, completed or thrown, keeps the numbers of H and O and every free H; adds at most one droplet per O, one per H2 consumed |
| LegacyProps.FallenKeepsKind | js/h2o.js:489 | a legacy fall keeps droplets droplets |
| LegacyProps.DripShape | js/h2o.js:487-499 | renderH2o keeps h and o, never adds droplets, keeps droplets droplets, and, if there is a droplet to visit, leaves none flagged |
| LegacyProps.SkipAfterRemoval | js/h2o.js:488-497 | with two droplets, the first at the bottom edge, the second is never moved in that frame |
| LegacyProps.FrameShape | js/h2o.js:410-417 | a frame, completed or thrown, keeps the numbers of H and O and the well-formedness; a completed one leaves no flagged droplet |

## Left out

- Drawing: canvases, images, `measureText`, `fillText`, `drawImage`, `clear`/`clearRect`, gradients, fonts,
  the double buffer and the fills of renderFrame and start. A glyph's measured width is a function of the host.
- `getColor`'s hex string is presentation. Only its `Math.random` call is kept, as a draw.
- Floating point: coordinates are reals. `Math.sqrt`, `Math.cos`, `Math.sin` are functions of the host, and only
  the facts a lemma needs are required of them (`SqrtSound`, `TrigBounded`). `Math.PI` is a constant.
- The bootstraps at js/Mizu.js:671-680 and js/h2o.js:544-552, and js/index.js, are not modelled. They are
  page start-up and the animation loop, which is I/O scheduling. `MizuSpec.Run` stands for repeated frames.
- js/Measurement.js is not part of this model. It is a timing overlay written into the page.
- tests/Atom.test.js:15-103 calls `isHit` with one atom and expects a check that depends on the kinds.
  The code has no such method; the kind checks it does have are in the simulator loops, which are modelled.
- js/Mizu.js declares `MizuSimulator` but does not export it, and the class has no `add` method, yet
  tests/Mizu.test.js imports it and calls `add`.
  `MizuScenario` starts the test's frame from the lists the test builds.
- The undefined `x`, `y`, `w`, `h`, `r` of a just-constructed legacy atom are modelled as 0. No pass reads them
  before `initializeDrawingProperties` sets them.
- The legacy `getScale` returning `undefined` for a width that is neither below nor at least 768 (NaN) has no
  counterpart: widths are reals.
- LegacySimulation.H2oSimulator.ScanPartners: reads each target from the live list instead of a `slice` copy.
  A slot is written only while the scan is at it, so both give the same targets. The model argues this
  and does not keep the copy.
- LegacySimulation.H2oSimulator.ConsumeO: visits the live slots of `h` that are merged instead of a `filter` copy.
  A slot is written only while the loop is at it, and only with a free H, so both visit the same atoms.
- LegacyProps.HPassShape: states lengths, which slots may change and flag monotonicity, not the new values.
  `PartnersFirstHit` and `PartnersAfterMerge` state those for each scan.
- MizuProps.HPassShape: likewise; `PartnerIsFirstHit` and `HVisitShape` give the values for each visit.

## Findings

| source | as written | input that shows it | evidently intended | confidence | as-written member | corrected member |
|---|---|---|---|---|---|---|
| js/h2o.js:488-497 | the live `for…of` walks the droplet list while the inner loop splices expired droplets out of it | two droplets, the first within a pixel of the bottom edge: it is removed, the second moves into its slot and is never moved that frame | every droplet present at the start falls once (as js/Mizu.js:612-623 does with its reverse loop) | high; not executed | LegacyProps.SkipAfterRemoval | MizuProps.DripAll |
| js/h2o.js:467-468 | after a first hit has replaced the O, `indexOf(_o)` is -1 and `atoms[-1].clear()` throws a TypeError | an O within reach of two H2 in one frame | the O's slot is replaced once, later hits only consume their H2 (the `oIndex >= 0` guard at js/Mizu.js:587-592) | high; not executed | LegacyProps.SecondHitThrows | MizuProps.ConsumeReplacesOnce |
| js/h2o.js:446 | `continue` after a hit keeps the merged H scanning, and every further free H it hits is replaced | three H at one point: the first takes both others | an H takes one partner (the `break` at js/Mizu.js:562) | medium; not executed | LegacyProps.TwoPartnersTaken | MizuProps.PartnerIsFirstHit |
