# Gravity sandbox — a verified model

This project models the core of a small 2-D gravity sandbox (one Python
file, `Gravity.py`, built on pygame). The user presses in the field to place
a planet and drags to give it a launch velocity. Three sliders set the size
and mass of new planets and the gravitational constant. Every frame first
handles the queued events, then advances every planet by one fixed time step
(0.05). A planet sums the pull of every other planet, takes one
semi-implicit Euler step and records its new position in a trail of at most
30 entries. The `r` key removes every planet.

The model has five modules:

- `Events` — pointer positions (integer pixels) and the events the loop
  reacts to.
- `Bodies` — the physics as values. `Body` is a planet's state. `Record` is
  the bounded trail. `Advance` is the Euler step. `AccelFrom`/`Accel` sum the
  pull of the other planets. `StepUpTo`/`Stepped` are the frame's tick, which
  updates planets one after the other, in place. `SimultaneousStep` is the
  snapshot-based alternative.
- `Planets` — `Planet` as a class whose fields are updated in place.
  `Planet.Update` is the loop over the list, proved to compute `Advance` of the
  planet's old state under `Accel` of the list's old states. `Tick` updates
  every planet of a list in order and is proved to compute `Stepped`.
- `Sliders` — the affine map between knob position and value (`ValueAt`,
  `KnobAt`), clamping, and `Slider` as a class. Its event handler is proved to
  follow the pure transition `Slider.Next`.
- `Sandbox` — `World` holds the planet list, the placement gesture (`dragging`,
  `tempStart`, `tempPlanet`) and the three sliders. It models event handling,
  the tick and one frame, plus small scenario methods for the interaction
  quirks.

The gravitational force needs a square root and a division by the squared
distance, so it is not computed. The frame loop is parametrised by a `Pull`
function instead: it takes the displacement to the attractor, the attractor's
mass and the gravitational constant, and returns an acceleration. The model
does compute the identity and zero-distance skips around the pull, the order
of the sum, and everything after it.

A snapshot-based update computes every acceleration from the state at the
start of the tick. The code instead updates each planet in place, in list
order, so later planets see earlier ones already moved. The model follows the
code (`Bodies.Stepped`) and defines the snapshot update as
`Bodies.SimultaneousStep`. For two planets, it proves that the two updates
differ under any pull law whenever the first planet's move changes the pull
the second feels from it, with the two planets apart both before and after
that move (`Bodies.InPlaceOrderMatters`). It also works one example through
under a spring pull (`Bodies.SequentialDiffersFromSimultaneous`).

## Model

| member | source | states |
|---|---|---|
| Bodies.RecordAppendsAndEvicts | Gravity.py:62-65 | about `Bodies.Record` (append, then drop the oldest entry past 30): recording a position makes it the newest trail entry; the entries before it are the old trail, minus its oldest entry exactly when the trail was full; the trail never exceeds 30 entries |
| Bodies.TrailKeepsLatest | Gravity.py:62-65 | after any number of recordings, a trail that started within bounds is exactly the latest 30 positions of its whole history, oldest first |
| Bodies.Advance | Gravity.py:56-65 | an Euler step keeps mass and radius, records the new position in the trail, and keeps the trail within 30 entries |
| Bodies.SemiImplicitEuler | Gravity.py:56-60 | velocity is updated first and position moves by the new velocity: v' = v + a·dt, x' = x + v'·dt = x + v·dt + a·dt² |
| Bodies.AccelFromVanishes | Gravity.py:40-48 | about `Bodies.AccelFrom`, the in-order sum that skips the planet itself and planets at zero distance: when no planet among those summed is another planet at nonzero distance, the summed acceleration is zero |
| Bodies.Drift | Gravity.py:40-60 | about `Bodies.Accel`, the sum over the whole list: a planet whose every other planet sits exactly on it (or that is alone) gets zero acceleration, keeps its velocity and moves by velocity·dt |
| Bodies.AccelReadsPositionsAndMasses | Gravity.py:41-54 | the summed acceleration depends only on the positions and masses of the planets, not on their velocities or trails |
| Bodies.StepUpTo | Gravity.py:161-163 | after the first n updates of a tick, the list has the same length and the planets from position n on are untouched |
| Bodies.StepUpToKeepsMass | Gravity.py:161-163 | a tick changes no planet's mass or radius |
| Bodies.StepUpToKeepsTrailBound | Gravity.py:161-165 | a tick keeps every trail within 30 entries |
| Bodies.SteppedIsSequential | Gravity.py:161-163 | about `Bodies.Stepped`, the whole tick: in a tick, planet k is advanced under the acceleration computed from planets 0..k-1 already advanced and planets k+1.. as they were at the start of the tick |
| Bodies.FirstBodyAgrees | Gravity.py:161-163 | the first planet of the list ends the tick as it would under a snapshot-based update |
| Bodies.SpringFirstMove | Gravity.py:39-60 | under the spring pull, the first of two planets one unit apart is advanced under the full unit displacement, and the second is not yet touched |
| Bodies.SpringSecondPull | Gravity.py:39-54 | once the first planet has moved to x = 0.0025, the second planet's summed acceleration is the shorter displacement (-0.9975, 0) |
| Bodies.SequentialSecondVelocity | Gravity.py:161-163 | two planets at rest one unit apart, under the spring pull (acceleration equal to the displacement): after the in-place tick the second planet's velocity is -0.049875 |
| Bodies.SimultaneousSecondVelocity | Gravity.py:161-163 | the same two planets, under the spring pull and the snapshot-based update: the second planet's velocity is -0.05 |
| Bodies.SequentialDiffersFromSimultaneous | Gravity.py:161-163 | under the spring pull, the in-place tick and the snapshot-based update give different results for those two planets |
| Bodies.InPlaceOrderMatters | Gravity.py:161-163 | for any pull law and any two planets: if the first planet's move changes the pull the second feels from it (both at nonzero distance), the second planet, and so the whole list, ends the tick differently under the in-place and the snapshot-based update |
| Planets.Planet.constructor | Gravity.py:24-31 | a new planet has the given position, mass, radius and velocity and an empty trail |
| Planets.Planet.Update | Gravity.py:39-65 | the planet's new state is the Euler step of its old state under the acceleration summed over the list's old states, skipping itself and planets at zero distance; the trail bound is preserved |
| Planets.Tick | Gravity.py:161-163 | updating every planet of the list in list order leaves the list's states equal to the in-place tick `Stepped` of their old states |
| Sliders.Abs | Gravity.py:94 | absolute value: non-negative, and equal to v or -v |
| Sliders.Clamp | Gravity.py:99 | the knob position lies on the track; a pointer on the track is kept, one left of it gives the left end, one right of it the right end |
| Sliders.ValueAtEnds | Gravity.py:100 | about `Sliders.ValueAt`, the value min + (knob − x) / w · (max − min): the left end of the track gives the minimum, the right end the maximum, the midpoint the mean |
| Sliders.ValueAtMonotone | Gravity.py:100 | the value is strictly increasing in the knob position |
| Sliders.ValueAtInRange | Gravity.py:99-100 | a knob on the track stands for a value in [min, max] |
| Sliders.KnobValueRoundTrip | Gravity.py:81-100 | `Sliders.KnobAt`, the initial knob placement x + (start − min) / (max − min) · w (line 81), and the value computed from the knob (line 100) undo each other, in both directions |
| Sliders.KnobOnTrack | Gravity.py:81 | the initial knob lies on the track exactly when the start value lies in the range |
| Sliders.Slider.constructor | Gravity.py:74-83 | a new slider holds the start value with its knob at the matching position, not dragging, and value and knob agree; the knob is on the track and the value in range exactly when the start value is in range |
| Sliders.Slider.Next | Gravity.py:92-100 | a press grabs the knob only within 15 px on both axes (`Sliders.Slider.Grabs`, line 94) (an already-grabbed knob stays grabbed); a release always lets go; motion moves the knob only while grabbed, to the clamped pointer x, and the value follows the knob within range; other events change nothing; a knob on its track with its value in range stays so (`Sliders.Slider.OnTrack`) |
| Sliders.Slider.HandleEvent | Gravity.py:92-100 | the slider's new state is `Next` of its old state, its value still matches its knob, and a knob on its track stays on it with its value in range |
| Sandbox.Trunc | Gravity.py:135 | the integer part of a real, truncating towards zero |
| Sandbox.World.constructor | Gravity.py:103-111 | the start state: no planets, no gesture; size slider at (50, 580), 5–50, start 15; mass slider at (50, 620), 5–2000, start 225; gravity slider at (350, 620), 1–300, start 100 |
| Sandbox.World.HandleEvent | Gravity.py:121-153 | every slider sees every event; a press above y = 600 (`Sandbox.InPlacementZone`, line 132) appends a fresh planet at rest with mass from the mass slider and radius the integer part of the size slider, and arms the gesture even if it was armed already; the new planet's mass lies in [5, 2000] and its radius in [5, 50]; a release while armed sets the pending planet's velocity to 0.1 × (pointer − press point) and disarms; `r` empties the list but leaves the gesture; nothing else changes the list or the gesture; no planet of the old list changes except the one launched, and the pending planet, even one a reset removed from the list, changes only on the launching release |
| Sandbox.World.Place | Gravity.py:131-139 | a press in the field appends a fresh planet at rest at the press point, sized and weighted by the sliders (so its mass lies in [5, 2000] and its radius in [5, 50]), records the press point and arms the gesture |
| Sandbox.World.Launch | Gravity.py:141-148 | a release while armed gives the pending planet velocity 0.1 × (pointer − press point), keeps its position and trail, and disarms the gesture |
| Sandbox.World.Step | Gravity.py:161-163 | the frame's tick under the gravity slider's value: the planets' states become `Stepped` of their old states, and every trail stays within bounds |
| Sandbox.World.Frame | Gravity.py:118-172 | handles the frame's events in order, then ticks; it reports a quit exactly when a quit event was among the events, and the world stays well formed: every slider keeps its range and its knob on its track, so size, mass and gravity stay within 5–50, 5–2000 and 1–300, and every planet's mass and radius stay within the creation ranges |
| Sandbox.PressOnSizeKnob | Gravity.py:126-139 | a press on the size slider's knob (y = 580, inside the placement field) both grabs the knob and places a planet |
| Sandbox.ReleaseAfterReset | Gravity.py:141-153 | pressing, then `r`, then releasing leaves the list empty, yet the release still gives the removed planet its launch velocity |
| Sandbox.ClickWithoutDrag | Gravity.py:131-148 | a press and release at the same point leaves one planet with zero velocity |
| Sandbox.SecondPressWhileArmed | Gravity.py:131-148 | a second press while armed places a second planet; the release launches only the second, and the first stays at rest |
| Sandbox.DragKnobToEnd | Gravity.py:92-100 | dragging the size knob past the right end gives the maximum 50; a later press on the track away from the knob does not grab it, so motion leaves the value at 50 |

## Left out

- Display colour (Gravity.py:67-70): cosmetic, computed with a square root and `int`, and never read back by the physics.
- Drawing, fonts, slider labels as text, the drag-line preview, the window, frame pacing, `pygame.init`/`quit` and `sys.exit`: rendering and platform I/O.
- The gravitational force's magnitude and direction (Gravity.py:49-54): it needs a square root. The `Pull` parameter stands for it, so the lemmas hold for any pull law.
- Floating-point rounding: the model uses exact reals. In particular, `dist2 == 0` holds in the model only for coincident positions. With floats it also holds for displacements small enough to underflow.
- `pygame.mouse.get_pos()`: the pointer position is a parameter. There is one per frame, because the position is sampled when the event queue is drained.
- The `running` flag and the outer `while` loop: `World.Frame` models one iteration and returns whether a quit event arrived.
- Sandbox.World.Frame: its contract states only the quit result and that the world stays well formed. The effect of each event and of the tick is stated by `World.HandleEvent` and `World.Step`, which it calls in order.
- Planets.Planet.Update: modelled only for a planet that is in the list it is given, in a list without duplicates. The frame loop never calls it any other way.
- Sliders.Slider.constructor: requires a positive track width and a nonempty range. The source divides by both, and all three sliders satisfy this.
- Sliders.Slider.Next: requires the same well-formedness, for the same reason.
