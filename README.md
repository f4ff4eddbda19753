# Portfolio page simulations in Dafny

This project models the three animated simulations on a personal portfolio web page and proves properties of them.

- **Floating bubbles** (`js/main.js`, module `Bubbles`, file `bubbles.dfy`). Each experience bubble has a physics record: position, velocity, radius 70, mass 1 (always), and the flags `isDragging` and `wasDragged`. One frame of `animateBubbles` does two things. It moves every bubble that is not being dragged: integrate, bounce off the walls, apply friction, and give a random kick when nearly stalled. It then resolves every overlapping pair `i < j` in loop order, first with a position correction and then with an impulse. A drag session (`draggedBubble`, `dragOffset`, `lastMousePos`, `dragVelocity`) is driven by `startDrag`, `onDrag` and `endDrag`. A click opens the detail view only when the bubble was not dragged. The model keeps the physics table as an `array<Body>` that the methods of class `BubbleField` update in place.
- **Atomic lattice** (`js/background.js`, module `Lattice`, file `lattice.dfy`). Atoms are objects (class `Atom`) tied to a base point. Each `update` does four things in order: it pushes the atom away from a pointer closer than 150 px, pulls it 2% back to its base, moves it by its thermal velocity, and reverses that velocity on an axis once the atom is more than 10 px from its base. `init` creates `ceil(width·height·0.0001)` atoms. `animate` updates the atoms in order. Right after updating atom `i`, it links atom `i` to itself and to every later atom closer than 130 px. Those later atoms have not been updated yet in that frame.
- **Illuminated grid and mouse trail** (`main.js`, module `Grid`, file `grid.dfy`). Class `Portfolio` holds these parts:
  - One cell per point of a 20 px lattice.
  - The pointer position. Moving the pointer recomputes each cell's target opacity and illuminated flag from its distance to the pointer.
  - `drawGrid`, which eases each cell's opacity towards its target and chooses the cells to outline, to glow and to link to the pointer.
  - The particle trail of `createMouseTrail`, filtered by remaining life. The page defines this method but never calls it, so on the page the trail stays undefined.

`numeric.dfy` (module `Numeric`) holds the shared vocabulary: vectors, squares, and a square-root parameter.

JavaScript numbers are modelled as exact reals. `Math.sqrt` is a function parameter `sqrt`. Lemmas that need its meaning assume `IsSqrt(sqrt)`: it returns the non-negative root. Every `Math.random()` value is a parameter of type `Draw`, a real in [0, 1). Drawing calls return the indices or lines they would stroke instead of painting.

## Model

| member | source | states |
|---|---|---|
| Bubbles.Spawn | js/main.js:110-124 | A new record has radius 70, is neither dragging nor dragged, lies in [100, W−100] × [100, H−100] when the window is at least 200 px each way, and has velocity components in [−1, 1) |
| Bubbles.Bounce | js/main.js:226-240 | A wall hit puts the centre at `r` or `limit − r` and multiplies the velocity by −0.8; otherwise nothing changes. When `limit ≥ 2r` the centre ends in [r, limit − r], and the speed never grows |
| Bubbles.Kick | js/main.js:246-250 | Only a bubble with both \|vx\| and \|vy\| below 0.1 is kicked, and each component changes by an amount in [−0.05, 0.05); any other bubble keeps its velocity |
| Bubbles.Advance | js/main.js:215-251 | A dragged bubble is untouched. Any other one keeps its identity fields, ends inside the walls when the window is wide and tall enough, and has each speed at most 0.99 times the old speed plus 0.05 |
| Bubbles.AdvanceVelocity | js/main.js:228-250 | The velocity rules in order: a wall contact gives −0.8·v, friction multiplies by 0.99, and only a stalled result gets a kick below 0.05 |
| Bubbles.MoveFree | js/main.js:222-250 | The imperative statements for one free bubble compute exactly `Advance` |
| Bubbles.Normal | js/main.js:268-273 | At distance 0 the normal is (1, 0); otherwise the normal times the distance is the offset, and it is a unit vector when the distance is the true length |
| Bubbles.Separate | js/main.js:277-294 | An overlap of at most 0.01 moves nothing; a dragged body never moves; velocities and identity are unchanged |
| Bubbles.SeparateFree | js/main.js:281-294 | For two free bodies along a unit normal, the gap grows by exactly 0.8 × overlap |
| Bubbles.SeparateCentre | js/main.js:282-293 | The inverse-mass split moves two free bodies by equal and opposite amounts, so their centre of mass stays where it was |
| Bubbles.SeparateAgainstDragged | js/main.js:286-293 | Against a dragged body, only the free one moves away. Its inverse-mass share of 0.8 × overlap is one half, as the masses are equal |
| Bubbles.SeparateAgainstDraggedSecond | js/main.js:286-293 | The mirror case: against a dragged first body, only the second one moves away, by the same half of 0.8 × overlap |
| Bubbles.Impulse | js/main.js:298-325 | A separating pair (normal speed > 0) keeps its velocities; a dragged body never changes; positions are unchanged |
| Bubbles.ImpulseRestitution | js/main.js:298-325 | For an approaching free pair, the new normal speed is −0.9 times the old one |
| Bubbles.ImpulseMomentum | js/main.js:311-325 | For two free bodies, the total momentum `v1 + v2` (unit masses) is unchanged on both axes |
| Bubbles.ImpulseAgainstDragged | js/main.js:318-325 | A dragged body takes no impulse. The free one's normal speed away from it never decreases, and for an approaching pair it grows by 0.95 times the approach speed |
| Bubbles.ImpulseAgainstDraggedSecond | js/main.js:318-325 | The mirror case: a dragged second body takes no impulse, and the free first one's normal speed away from it never decreases and grows by 0.95 times the approach speed |
| Bubbles.Resolve | js/main.js:277-325 | Correction then impulse: dragged bodies stay fixed and identity fields are kept |
| Bubbles.Contact | js/main.js:268-325 | The body of an overlapping pair (normal, overlap, correction, impulse) keeps dragged bodies fixed |
| Bubbles.ResolveConserves | js/main.js:277-325 | For two free bodies, total momentum and the centre of mass are conserved |
| Bubbles.ResolveRestitution | js/main.js:298-325 | For two free bodies, an approaching pair leaves at 0.9 times its approach speed and a separating pair keeps its velocities |
| Bubbles.ResolveGap | js/main.js:277-294 | For two free bodies, the gap opens by 0.8 × overlap when the overlap exceeds 0.01; otherwise positions stay |
| Bubbles.StepPair | js/main.js:256-326 | Only the pair (i, j) can change, dragged bodies never change, and a pair whose squared distance is not below (r1+r2)² is left alone |
| Bubbles.RowFrom | js/main.js:255-327 | The inner loop keeps every identity field and every dragged body |
| Bubbles.RowsFrom | js/main.js:254-328 | The outer loop keeps every identity field and every dragged body |
| Bubbles.FrameKeepsDragged | js/main.js:215-328 | A whole frame changes only positions and velocities, and never changes a dragged bubble |
| Bubbles.PairUpdateConserves | js/main.js:318-325 | Writing back a conserving pair leaves the table totals unchanged |
| Bubbles.StepPairConserves | js/main.js:256-326 | With no bubble dragged, each pair step conserves total momentum and the centre of mass |
| Bubbles.RowFromConserves | js/main.js:255-327 | The same holds for each inner loop |
| Bubbles.RowsFromConserves | js/main.js:254-328 | The same holds for the outer loop from any row on |
| Bubbles.CollisionsConserve | js/main.js:254-328 | With no bubble dragged, the whole collision pass conserves total momentum and the centre of mass |
| Bubbles.TouchingPairIgnored | js/main.js:264-267 | Exactly touching bubbles are not a collision (strict `<`), so a touching pair closing head-on keeps its velocities |
| Bubbles.HeadOnContact | js/main.js:268-325 | A concrete head-on contact: with a 1 px overlap and closing speeds of 2, each bubble moves 0.4 px apart and leaves at 1.8 |
| Bubbles.CorrectionCrossesWall | js/main.js:281-289 | The correction runs after the wall clamp and can push a bubble past the left wall, so containment does not hold at the end of a frame |
| Bubbles.BubbleField.constructor | js/main.js:103-124 | Every record is the spawned one, there is no drag session, the drag vectors are zero, and the modal is closed |
| Bubbles.BubbleField.StartDrag | js/main.js:145-168 | No effect while the modal is open. Otherwise the bubble is marked dragging with its drag start recorded and `wasDragged` cleared, it becomes `draggedBubble`, the offset is pointer minus centre, the last pointer is recorded, and the throw velocity is zeroed. A previously dragged bubble keeps its flag |
| Bubbles.BubbleField.OnDrag | js/main.js:170-191 | No effect without a dragged bubble. Otherwise the centre becomes pointer minus offset, the throw velocity becomes the pointer delta, and `wasDragged` becomes true once the pointer is more than 5 px from the drag start (never reset here) |
| Bubbles.BubbleField.EndDrag | js/main.js:193-206 | No effect without a dragged bubble. Otherwise its velocity becomes 0.5 × throw velocity, `isDragging` is cleared and the session ends |
| Bubbles.BubbleField.OpenModal | js/main.js:355-375 | An unknown id changes nothing; a known id opens the modal |
| Bubbles.BubbleField.CloseModal | js/main.js:377-381 | The modal is closed |
| Bubbles.BubbleField.Click | js/main.js:131-136 | The detail view opens exactly when the bubble was not dragged and its id is known; nothing else changes |
| Bubbles.BubbleField.MoveBubbles | js/main.js:215-251 | The `forEach` leaves the table equal to `Moved` of the old one |
| Bubbles.BubbleField.CollidePair | js/main.js:256-326 | The in-place pair update equals `StepPair` of the old table |
| Bubbles.BubbleField.CollideRow | js/main.js:255-327 | The inner loop equals `RowFrom` of the old table |
| Bubbles.BubbleField.ResolveCollisions | js/main.js:254-328 | The nested loops equal `Collisions` of the old table |
| Bubbles.BubbleField.AnimateBubbles | js/main.js:208-337 | One frame equals `Frame` of the old table and keeps the drag session consistent |
| Bubbles.ThrowThenClick | js/main.js:131-206 | A grab at (500, 400), a move to (550, 430) and a release throw the bubble at (25, 15); the following click opens nothing |
| Bubbles.SecondGrabStrandsFirst | js/main.js:145-151 | A second `startDrag` before `endDrag` leaves the first bubble flagged as dragging, so later frames never move it |
| Lattice.SpawnAtom | js/background.js:20-28 | A new atom's base is its start position, its velocity components lie in [−0.25, 0.25), and its size lies in [1, 3) |
| Lattice.SpawnInside | js/background.js:83-88 | `init` places every atom in [0, width) × [0, height) |
| Lattice.ClearIffApart | js/background.js:35-39 | The model's no-division-by-zero condition holds exactly when the pointer is absent or not on the atom |
| Lattice.Repel | js/background.js:32-47 | Repulsion never changes base, velocity or size, and does nothing without a pointer or when the pointer is 150 px or more away |
| Lattice.RepelOffset | js/background.js:38-46 | The push is the offset direction times `force·size·5` |
| Lattice.RepelMovesAway | js/background.js:37-46 | A pushed atom moves straight away from the pointer: its distance grows from d to exactly d + force·size·5, with force in (0, 1] |
| Lattice.Settle | js/background.js:49-60 | The offset from base becomes 0.98 × offset + velocity; a velocity component is negated exactly when the new offset on that axis exceeds 10 |
| Lattice.SettleContracts | js/background.js:49-57 | The new offset is at most 0.98 × old offset + \|v\| on each axis |
| Lattice.AtomStep | js/background.js:30-61 | `update` never changes base or size, and changes velocity only by negation, so \|vx\| and \|vy\| are kept |
| Lattice.SpawnWandering | js/background.js:20-27 | A new atom is within 12.5 px of its base with speed at most 0.25 per axis |
| Lattice.StepKeepsWandering | js/background.js:30-61 | Without a push, an atom never leaves the 12.5 px box around its base |
| Lattice.Atom.constructor | js/background.js:20-28 | The new atom's fields are `SpawnAtom` of its position and draws |
| Lattice.Atom.PushFromPointer | js/background.js:32-47 | The pointer block of `update` leaves the atom equal to `Repel` of its old state |
| Lattice.Atom.Update | js/background.js:30-61 | `update` leaves the atom equal to `AtomStep` of its old state |
| Lattice.Stepped | js/background.js:94-96 | One frame's `update` pass over the list: same length, every base and size kept, every speed kept up to sign, and with no pointer each atom only settles towards its base |
| Lattice.SteppedKeepsWandering | js/background.js:94-96 | Every atom the pointer does not push stays in the 12.5 px box around its base through the pass |
| Lattice.LinkedIffClose | js/background.js:103-105 | The distance test `d < 130` is the squared test `d² < 130²` |
| Lattice.RowLinksSound | js/background.js:99-113 | Every line of row i goes from i to some j ≥ i closer than 130 px, with opacity 0.15·(1 − d/130) in (0, 0.15] |
| Lattice.RowLinksHas | js/background.js:99-113 | Every partner j ≥ i that passes the distance test gets its line |
| Lattice.FrameLinksSound | js/background.js:94-114 | Every line of a frame joins i to some j ≥ i that was closer than 130 px when row i was drawn, with opacity in (0, 0.15] |
| Lattice.FrameLinksComplete | js/background.js:94-114 | Every pair j ≥ i closer than 130 px when row i is drawn has its line |
| Lattice.SelfLinks | js/background.js:99-107 | Each atom is linked to itself at full opacity 0.15 |
| Lattice.Lattice.constructor | js/background.js:10-12 | No atoms and no pointer at load |
| Lattice.Lattice.Init | js/background.js:71-89 | The list is replaced by exactly `ceil(w·h·0.0001)` fresh atoms; atom k is spawned at (px·w, py·h) from its draws |
| Lattice.Lattice.MouseMove | js/background.js:119-122 | The pointer becomes the event position |
| Lattice.Lattice.MouseOut | js/background.js:123-126 | The pointer becomes absent, so no atom is pushed afterwards |
| Lattice.Lattice.LinkRow | js/background.js:99-113 | The inner loop collects exactly `RowLinks` of the current positions |
| Lattice.Lattice.StepAtom | js/background.js:95-96 | Updating atom i changes no other atom |
| Lattice.Lattice.StepAndLink | js/background.js:95-113 | One pass of the outer loop: atom i is updated, then its row is appended, so the frame advances by one atom and one row |
| Lattice.Lattice.Animate | js/background.js:91-116 | Every atom ends at `Stepped` of its old state, and the lines are `FrameLinks` with the interleaved positions |
| Grid.ColumnAt | main.js:44-53 | The inner loop of column i pushes the dark cell (20i, 20j) at position j |
| Grid.LayoutLength | main.js:43-54 | `createGrid` makes exactly `cols·rows` cells |
| Grid.LayoutAt | main.js:43-53 | Column-major order: index i·rows + j holds the dark cell at (20i, 20j) |
| Grid.LayoutCells | main.js:43-53 | Every cell is the dark cell of its own lattice point (k / rows, k % rows): opacity 0, target 0, not illuminated |
| Grid.Illuminate | main.js:89-103 | Illumination keeps a cell's coordinates and opacity |
| Grid.IlluminateExact | main.js:86-103 | A cell is illuminated exactly when it is closer than 150 px to the pointer; its target is then 0.6·(1 − d/150), in (0, 0.6], and otherwise 0 |
| Grid.Ease | main.js:112 | The new opacity lies between the old one and the target, the gap shrinks by the factor 0.9, and a cell at its target is a fixed point |
| Grid.EaseConverges | main.js:112 | After n frames with an unchanged target, the gap is 0.9ⁿ times the first gap, and 0 < 0.9ⁿ ≤ 1 |
| Grid.RangeKept | main.js:36-112 | Fresh layout cells have opacity and target in [0, 0.6], and illumination and easing keep every cell there |
| Grid.IndicesExact | main.js:110-157 | A selection pass picks exactly the cells passing its test, once each, in increasing order |
| Grid.GlowingAreOutlined | main.js:114-132 | Every glowing cell is also outlined |
| Grid.ConnectedAfterIllumination | main.js:140-158 | With illumination up to date, the pointer is linked exactly to the cells closer than 100 px |
| Grid.NewParticle | main.js:232-241 | A new particle starts at the pointer with life 1, decay 0.02 and velocity components in [−1, 1) |
| Grid.Spawned | main.js:247-250 | At most one particle is added, and one is added exactly when the draw is below 0.3 |
| Grid.SurvivorsExact | main.js:253-264 | The filter keeps, drifted, exactly the particles whose new life is positive, and never grows the trail |
| Grid.SurvivorsAppend | main.js:253-264 | Filtering preserves order: the filter of a concatenation is the concatenation of the filters |
| Grid.AgedLife | main.js:254-256 | After n filters a particle's life has dropped by exactly n·decay |
| Grid.TrailLifetime | main.js:238-264 | A new particle survives its first 49 filters and is dropped by the 50th |
| Grid.Portfolio.constructor | main.js:3-20 | The grid is built for the window, the pointer starts at (0, 0), and the trail is empty |
| Grid.Portfolio.CreateGrid | main.js:37-55 | The list is replaced by `Layout(ceil(W/20)+1, ceil(H/20)+1)` |
| Grid.Portfolio.UpdateGridIllumination | main.js:86-104 | Every cell becomes `Illuminate` of its old value for the current pointer |
| Grid.Portfolio.MouseMove | main.js:59-63 | The pointer moves, then the cells are re-illuminated |
| Grid.Portfolio.TouchMove | main.js:66-72 | The first touch, if any, moves the pointer and re-illuminates; no touches changes nothing |
| Grid.Portfolio.Resize | main.js:75-78 | The grid is rebuilt for the new window |
| Grid.Portfolio.DrawMouseConnections | main.js:140-159 | The linked cells are exactly those passing the distance-and-illumination test, in order |
| Grid.Portfolio.DrawGrid | main.js:106-138 | Every cell is eased; outlined, glowing and linked cells are exactly those passing each test on the eased values |
| Grid.Portfolio.CreateMouseTrail | main.js:244-265 | The trail becomes the survivors of the old trail plus the possibly spawned particle |

## Behaviour of the code worth knowing

These are properties of the code as written:

- The repulsion in `js/background.js:38-39` divides by the distance without a guard. At distance 0 the JavaScript result is NaN. The model requires the pointer not to be exactly on the atom (`Clear`).
- The line pass in `js/background.js:99` starts the inner loop at `j = i`, so every atom is linked to itself (`SelfLinks`).
- A second `startDrag` overwrites `draggedBubble` without clearing the first bubble's `isDragging` (`js/main.js:150-151`, `SecondGrabStrandsFirst`).
- Wall containment holds after the bounce code only. The collision correction runs later and does not re-clamp (`CorrectionCrossesWall`).
- Exactly touching bubbles do not collide, because the test is a strict `<` (`TouchingPairIgnored`).
- `createMouseTrail` in `main.js:244-265` is defined but never called, so the page never builds or draws a trail (`Portfolio.CreateMouseTrail` models the method on its own).

## Left out

- Canvas and DOM effects (`ctx.*`, `style.transform`, cursor, z-index, `innerHTML`, `preventDefault`, `setupCanvas` and `devicePixelRatio`): rendering only. Drawing methods return the selected cells or lines instead.
- `requestAnimationFrame`, `cancelAnimationFrame`, `stopAnimation` and the listener wiring: scheduling only. Each model method is one call.
- The empty `resize` listener in js/main.js does nothing and has no model.
- Floating point: numbers are exact reals. IEEE rounding, NaN and infinities are not modelled.
- Grid.TrailLifetime: with binary floating point, fifty subtractions of 0.02 from 1 need not give exactly 0. The 49/50 boundary holds for exact reals only.
- `Math.sqrt` and `Math.hypot` are a parameter. `OnDrag` compares squared distances, which is equivalent for the non-negative hypotenuse.
- `Math.random` is not computed: its values are parameters in [0, 1).
- The `experienceData` contents are static text. Only its key set is kept, for the unknown-id guard of `openModal`.
- Bubble mass: the page creates every physics record with mass 1 and never changes it. The model has no mass field. Each `1 / mass` factor is written as 1 and the sum of two inverse masses as 2, so momentum is velocity.
- The physics `Map` keyed by element is an array indexed by the bubble's position in the bubble list. Bubbles are distinct elements, so nothing aliases.
- Before the first `startDrag`, `wasDragged` and the drag start are `undefined` in the page. The model starts them as `false` and 0. These are the same for every use the code makes of them.
- `onDrag` and `startDrag` read the pointer from `e.touches[0]` or from the mouse event. The caller passes the chosen coordinates.
- Lattice.Repel, Lattice.AtomStep, Lattice.Atom.Update and Lattice.Lattice.Animate require that no atom sits exactly under the pointer. The code divides by zero there and produces NaN.
- The `pulsePhase` field of a grid cell and its random draw are never read, so they have no model.
- `createMouseTrail` (main.js:244) has no caller, so on the page `mouseTrail` stays `undefined` and no trail is ever drawn. `Grid.Portfolio.CreateMouseTrail` models the method as written, as if it were called; the model starts the trail empty, which is what the method's own first line makes of `undefined`.
- `Atom.draw`, `updateBubbles` and `updateScrollEffects` (sine and cosine floating, scroll parallax), and `initBubbles` in main.js: rendering or trigonometry with no contract to state.
- Ripple, explosion and notification effects, smooth scrolling, observers and performance marks: foreign libraries or browser APIs.
