# Epicyclic gearing — a Dafny model of its core

The program draws an epicyclic gear train: an internal ring gear (annulus), a
sun pinion and three planet pinions, all turning inside a frame. Four pieces
of logic make up its core, and this project models each one and proves what it
promises:

- **Outline generator** (`getGear`). It turns a gear descriptor into a path.
  The path is a closed ring of trapezoidal teeth, followed by a closed circle:
  the bore of a pinion or the outer rim of a ring gear.
- **Kinematic model**. Each clock tick advances the drive angle by a fixed
  speed. While the frame ratio is non-zero, the tick also advances the frame
  angle by speed / ratio.
- **Transforms**. Each gear is placed at its origin and rotated by
  drive angle / signed radius. The frame is placed at the view centre and
  rotated by the frame angle. Both rotations are reduced with the source
  language's `% 360`.
- **Tap controller**. A touch shorter than 500 ms steps the frame ratio
  through the modes 0.5 → 0 → −0.1 → 0.5. Any value outside these three falls
  back to 0.5.

Modules:

- `GearTable` (`table.dfy`): the gear descriptors and the gear table.
- `Outline` (`outline.dfy`): the outline generator, with a method that loops
  as the source does, and lemmas about the path it builds.
- `Kinematics` (`kinematics.dfy`): ticks, the exact `% 360`, and the gear and
  frame transforms.
- `Controller` (`controller.dfy`): tap detection and the mode cycle.
- `Scene` (`app.dfy`): a class holding the four mutable cells that the
  callbacks update in place: drive angle, frame angle, frame ratio and press
  time.

Representation choices:

- Outline points are in polar form `Polar(radius, steps)`. Angles are
  counted in steps of half a tooth pitch: for a gear of n teeth,
  `Polar(radius, steps)` stands for the Cartesian point
  (radius·cos(steps·π/n), radius·sin(steps·π/n)).
- So the source's increment `da` = π/n is one step, the top of the screen (−π/2; y grows
  downwards) is −n/2 steps, and one revolution is 2n steps. Closing the path is then exact
  linear arithmetic, with no sine or cosine involved.
- The bore circle's literal points (0, −r) and (0, r) are the polar points
  (r, −n/2) and (r, n/2).
- Radii are multiplied by the view width, which is a parameter of the model.
- The layout constants sin(2π/3) and cos(2π/3) are parameters `x` and `y` of
  the gear table.
- Timestamps are integer milliseconds that the caller passes in.

Behaviour of the code that the model keeps as written:

- The code has no Idle/Pressed state machine. It only records the press
  time. So a release that comes without a new press is measured against the
  last press time recorded (initially 0).
- The code does not validate descriptors. The model puts the needed
  conditions (at least one tooth; a non-zero radius for the transforms) in
  the preconditions, and the gear table is proved to meet them.
- Tooth arcs write the view width in the arc's sweep-flag position, and the
  circle's arcs write 0. In SVG that 0 draws the circle against the tooth
  ring's ascending angles, so the circle is wound the opposite way and cuts
  a hole. The model records both values (`Outline.OutlineIsClosed`) as
  numbers and does not interpret them.

## Model

| member | source | states |
|---|---|---|
| GearTable.Abs | App.js:85 | the result is non-negative and equals the argument or its negation |
| GearTable.Gears | App.js:31-47 | the table has five gears, each with at least one tooth and a non-zero radius; only the first is an annulus; ring and sun share the centre |
| GearTable.ToothPitchIsUniform | App.js:31-47 | every gear has exactly 160 teeth per unit of pitch radius, so all teeth share one pitch |
| GearTable.TrainFitsTogether | App.js:26-47 | ring radius = sun radius + 2·planet radius; each planet centre is at distance 0.3·width = sun + planet = ring − planet, given x² + y² = 1 |
| Outline.GearRadii | App.js:85-89 | pitch = abs(radius); pinion: root < pitch < tip, tip − root = 2·tooth depth, bore = hole radius, and the bore lies inside the roots once the pitch radius exceeds tooth depth + hole radius; annulus: tip < pitch < root < rim, rim = pitch + 3·tooth depth |
| Outline.RingReversesPinion | App.js:86-89 | a ring gear swaps a pinion's root and tip radii, giving the reverse radius ordering |
| Outline.GetGear | App.js:83-154 | the path built by reassigning the radii and accumulating `a0` over n iterations equals `GearOutline`: a move to the first root point, n teeth, and the circle |
| Outline.ToothRingAt | App.js:98-134 | command 6j+p of the tooth ring is command p of tooth j, and tooth j starts 2j steps past the start |
| Outline.ToothRingEnd | App.js:126-132 | the last command of k teeth is a line ending on the root circle 2k steps past the start |
| Outline.OutlineSkeleton | App.js:92-151 | the command letters are exactly M, then n copies of A L L A L L, then M A A Z; the length is 6n + 5 |
| Outline.OutlineCounts | App.js:99-151 | the tooth ring has 2n arcs, 4n lines and no move or close; the whole path has 2 moves, 2n + 2 arcs, 4n lines and 1 close |
| Outline.ToothRingArcsOn | App.js:100-124 | k teeth hold exactly k arcs on the tip circle and k on the root circle when the two circles differ |
| Outline.OutlineArcsOn | App.js:117-124 | for a positive width the outline's tooth ring has exactly n tip-circle arcs and n root-circle arcs |
| Outline.OutlineIsClosed | App.js:90-151 | the tooth ring starts at (root, start) and its last command returns to (root, start + 2n steps), one full revolution later; between them there are only lines and arcs, and the arcs carry the width as sweep value; the circle runs top (0, −r) → bottom (0, r) → top and then closes, with sweep value 0 |
| Outline.OutlinePointAt | App.js:106-132 | tooth-ring point i lies on the root, pitch or tip circle, at the angle given by its tooth and its position within the tooth |
| Outline.OutlineAnglesAscend | App.js:98-133 | every tooth-ring point is on the root, pitch or tip circle, with its angle in (start, start + 2n steps]; the angles never decrease along the path |
| Kinematics.Tick | App.js:53-57 | the drive angle grows by exactly `speed`; the ratio is kept; the frame angle is unchanged at ratio 0 and otherwise grows by an amount that, times the ratio, equals `speed` |
| Kinematics.TicksClosedForm | App.js:53-57 | after k ticks: angle + k·speed, the same ratio, and frame angle + k·speed/ratio (unchanged at ratio 0) |
| Kinematics.FrameStationary | App.js:55-56 | at ratio 0 the frame angle never changes while the drive angle keeps growing |
| Kinematics.Rem360 | App.js:76 | `v % 360` on ideal reals: magnitude below 360, same sign as v, differs from v by a whole number of 360s, identity inside (−360, 360) |
| Kinematics.Rem360Unique | App.js:64 | those properties determine the remainder uniquely |
| Kinematics.GearTurn | App.js:76 | rotation × radius = drive angle; the rotation's sign is the drive angle's sign times the radius's sign |
| Kinematics.Meshing | App.js:70-81 | any two gears' rotations are inversely proportional to their signed radii |
| Kinematics.GearTransform | App.js:72-78 | translation to the gear's origin; the rotation is the reduced `angle / radius`, meaning in range, of the same sign, and a whole number of 360s away |
| Kinematics.GearTransforms | App.js:70-81 | one transform per gear, in table order |
| Kinematics.FrameTransform | App.js:59-68 | translation to (width/2 + 20, height/2); the rotation is the reduced frame angle |
| Kinematics.FrameTransformStationary | App.js:55-68 | at ratio 0 the frame transform is the same after any number of ticks |
| Kinematics.TableTurnRatios | App.js:31-47 | in the table, the sun turns −2× as fast as each planet, a planet 2.5× as fast as the ring, and all planets alike |
| Kinematics.HundredTicks | App.js:49-57 | from the initial state, after 100 ticks the angle is 0.3, the sun has turned 3 and a planet −1.5, both unreduced and after `% 360`, and the frame angle is 0.6 |
| Controller.NextMode | App.js:163-172 | the result is always a mode and never the argument; 0.5 → 0 → −0.1 → 0.5; any non-mode goes to 0.5 |
| Controller.OnStart | App.js:158-160 | a press records its time and keeps the ratio |
| Controller.OnEnd | App.js:161-174 | the ratio changes if and only if the touch lasted less than 500 ms, and then it becomes the next mode; the press time is kept |
| Controller.TapBoundary | App.js:162 | a release 499 ms after the press steps the mode; at 500 ms or 501 ms nothing changes |
| Controller.TappedCycles | App.js:163-172 | k taps from mode i reach mode (i + k) mod 3 |
| Controller.ThreeTaps | App.js:163-172 | starting at 0.5, three taps give 0, then −0.1, then 0.5 |
| Controller.ReplayTaps | App.js:157-175 | after any series of touches, the ratio is the one reached by as many taps as the series contains taps |
| Controller.ReplayFromInitial | App.js:156-175 | from the initial state the ratio is always a mode, namely mode (number of taps mod 3) |
| Scene.GearTrain.constructor | App.js:20 | the cells start with angle 0, frame angle 0, ratio 0.5 and press time 0 |
| Scene.GearTrain.OnClock | App.js:53-57 | updates the two angle cells in place exactly as `Kinematics.Tick`; the ratio and the press time are untouched; the ratio stays a mode |
| Scene.GearTrain.OnTouchStart | App.js:158-160 | only the press-time cell changes, and it becomes the given time |
| Scene.GearTrain.OnTouchEnd | App.js:161-174 | updates the ratio cell in place exactly as `Controller.OnEnd`; the angles are untouched; after a tap, or starting from a mode, the ratio is a mode |

## Left out

- Rendering (`Canvas`, `Group`, `Path`, `StyleSheet`) and the reactive plumbing (`useValue`, `useClockValue`, `useValueEffect`, `useDerivedValue`, `useTouchHandler`). These are foreign library calls. The transforms are modelled as pure functions of the current cell values.
- `Dimensions.get`. The view width and the screen height are parameters.
- `Math.sin`, `Math.cos` and Cartesian point coordinates. Points are polar; the two layout constants are parameters.
- Floating-point rounding. All arithmetic is on ideal reals, so `da + 3·(da/3) = 2·da` holds exactly and n increments of 2·da make exactly one revolution. In floats it may not.
- The SVG text itself and `join('')`. The path is a sequence of command values. That includes the sweep-flag text, which is kept as a number.
- `Date.now()`. The handlers take the time as an argument.
- Outline.GetGear: requires at least one tooth. With 0 teeth the source computes π/0 and draws only the circle; no gear in the table has 0 teeth.
- Kinematics.GearTurn: requires a non-zero radius. With radius 0 the source's rotation would be an infinite or NaN float. The same precondition holds for Kinematics.GearTransform and Kinematics.GearTransforms.
- The unit of the renderer's `rotate` is not modelled. Rotations are reduced modulo 360 exactly as written, whatever unit the renderer uses.
