# Valentine page: escalation, dodging, sparkles, fireworks and typing

A Dafny model of the interactive core of a single-page "will you be my
Valentine?" app (`app/page.tsx`). The page asks a question with a Yes and a No
button. Each time the pointer reaches the No button, it jumps away from the
pointer. The Yes button grows, the No button shrinks and fades, and a
subheading pleads more urgently. After ten dodges the No button gives up and
accepts too. Accepting starts a canvas fireworks show and a typed two-line
message.

The model has one module per part of the page:

- `Escalation` (`escalation.dfy`) holds everything derived from the attempt
  count. This covers the subheading table search, the clamped No label, the
  linear Yes growth, the floor-clamped No shrink, the Yes class and text
  bands, and the No button's surrender view and handlers.
- `Dodge` (`dodge.dfy`) holds the placement step of a dodge. It projects,
  clamps into the padded viewport, and falls back to a reflected point when
  the clamped point is still within 150 pixels of the pointer. It also has the
  `Question` class. That class holds the state the page updates: attempts,
  position, shaking and accepted. The button handlers act on it.
- `Sparkles` (`sparkles.dfy`) holds the sparkle buffer. It is a bounded FIFO
  with a spawn tick, a prune tick and an id counter.
- `Fireworks` (`fireworks.dfy`) holds the frame step. The class `Show` keeps
  the rocket and particle lists and the launch watermark. `Animate` walks both
  lists backwards and splices, as the page does. Its result is tied to the
  functions `Climbing`, `Debris` and `Survivors`, and the lemmas are proved
  about those functions.
- `Typing` (`typing.dfy`) holds the phase / index state machine of the typed
  message, and what is shown (text and cursor) in each state.
- `Option` (`option.dfy`) is the usual optional value.

Randomness, trigonometry and the environment are parameters. Every
`Math.random()` draw is a real in [0, 1). The cosine and sine of the angles are
given directly, with cos² + sin² = 1 where the model relies on it. The pointer
position, the viewport size and the canvas size are passed in. Each timer or
animation-frame callback is a method the caller invokes. Drawing is a no-op.
Distances are compared squared against 150², not through a square root.
Numbers are Dafny `real`s.

Two consequences of the code's order of operations are worth stating:

- The particle loop reads the list's length after the rocket loop. So the
  particles an explosion adds are aged in the frame that creates them
  (`DebrisAgedInSameFrame`).
- The fallback return after the subheading loop cannot be reached for any
  count ≥ 0, because the last threshold is 0
  (`SubheadingFallbackUnreachable`).

## Model

| member | source | states |
|---|---|---|
| `Escalation.FirstAtOrBelowFromTable` | app/page.tsx:79-82 | whatever the first-match loop returns is the text of a row whose threshold is at most the attempt count |
| `Escalation.FirstAtOrBelowFindsFirst` | app/page.tsx:79-84 | the search returns the text of row k whenever row k is the first row whose threshold is at most the attempt count |
| `Escalation.FirstAtOrBelowNone` | app/page.tsx:79-84 | the search comes up empty exactly when every threshold exceeds the attempt count |
| `Escalation.HighestThresholdWins` | app/page.tsx:46-84 | in a table sorted by descending threshold, the first match is the row with the highest threshold not above the attempt count |
| `Escalation.GetSubheading` | app/page.tsx:79-84 | the subheading is always one of the table's texts; `SubheadingIsHighestThreshold` says which one |
| `Escalation.SubheadingIsHighestThreshold` | app/page.tsx:46-84 | for every attempt count ≥ 0 the subheading is the text of the highest threshold ≤ the count; a count equal to a threshold gets that threshold's text |
| `Escalation.SubheadingFallbackUnreachable` | app/page.tsx:54-83 | the loop always returns for a count ≥ 0, because the last threshold is 0; the fallback line is dead |
| `Escalation.SubheadingExamples` | app/page.tsx:46-55 | 0 gives "I promise it'll be fun! 🥰", 3 gives "I'll be really sad if you say no... 😢", and every count ≥ 12 gives "THE BUTTON HAS SPOKEN. YES. 👑✨" |
| `Escalation.GetNoText` | app/page.tsx:57-88 | the label is the entry for the attempt count while one exists, and "💀", the last entry, for every count ≥ 12 |
| `Escalation.YesScale` | app/page.tsx:389 | the Yes scale is never below 1; `YesGrowsWithoutCap` gives its growth |
| `Escalation.YesPadding` | app/page.tsx:390 | the Yes padding is never below 16 |
| `Escalation.YesFontSize` | app/page.tsx:391 | the Yes font size is never below 18 |
| `Escalation.YesGrowsWithoutCap` | app/page.tsx:389-391 | from a base of scale 1, padding 16 and font size 18, each attempt adds exactly 0.18 to the Yes scale, 3 to its padding and 2 to its font size, with no upper bound |
| `Escalation.NoScale` | app/page.tsx:404 | the No scale is never below 0.35; it equals 1 − 0.07·a up to 9 attempts and is exactly the floor from 10 on |
| `Escalation.NoOpacity` | app/page.tsx:405 | the No opacity is never below 0.25; it equals 1 − 0.08·a up to 9 attempts and is the floor from 10 on |
| `Escalation.NoFontSize` | app/page.tsx:406 | the No font size is never below 10; it equals 18 − 0.8·a up to 10 attempts and is the floor from 10 on |
| `Escalation.NoButtonNeverGrows` | app/page.tsx:403-406 | more attempts never increase the No button's scale, opacity or font size |
| `Escalation.YesTier` | app/page.tsx:392-401 | the Yes presentation tier is 1 or more from 2 attempts, 2 or more from 4, 3 or more from 7, and the top tier exactly from 10 |
| `Escalation.YesClassName` | app/page.tsx:392-401 | the class always starts with "yes-btn" and is exactly "yes-btn" below 2 attempts; `YesClassChangesOnlyAtBands` gives where it changes |
| `Escalation.GetYesText` | app/page.tsx:409-414 | the label is "Yes! 💖" exactly below 4 attempts and "YES!!! 💖🔥💖" exactly from 10 on; `YesTextChangesOnlyAtBands` gives where it changes |
| `Escalation.YesClassChangesOnlyAtBands` | app/page.tsx:392-401 | the Yes class changes between a and a + 1 exactly when a + 1 is 2, 4, 7 or 10 |
| `Escalation.YesTextChangesOnlyAtBands` | app/page.tsx:409-414 | the Yes text changes between a and a + 1 exactly when a + 1 is 4, 7 or 10 |
| `Escalation.NoButton` | app/page.tsx:538-585 | the in-card button says "No" and dodges on hover and touch; the fixed button dodges on hover iff attempts < 10; from 10 on it reads "Fine... Yes! 💖" with the surrender class, full size and opacity, and its click and touch accept; below 10 it shows the clamped label with the shrunk scale, faded opacity and reduced font size, the glitch class exactly at 8–9 and the plain "no-btn" class below 8 |
| `Dodge.Clamp` | app/page.tsx:171-172 | the clamped value is never below the padding; it is at most the far edge whenever the range is non-empty; a value already in range is kept; an empty range collapses to the padding |
| `Dodge.EscapeDistance` | app/page.tsx:165 | the projection distance lies in [200, 450) |
| `Dodge.FirstCandidate` | app/page.tsx:164-172 | the projected and clamped point always lies inside the padded viewport |
| `Dodge.Fallback` | app/page.tsx:178-181 | the reflected, jittered and clamped point always lies inside the padded viewport |
| `Dodge.ProjectAway` | app/page.tsx:164-172 | the first block of a dodge computes exactly `FirstCandidate`, inside the padded viewport |
| `Dodge.ReflectPointer` | app/page.tsx:178-181 | the fallback block computes exactly `Fallback`, inside the padded viewport |
| `Dodge.PlaceNoButton` | app/page.tsx:156-182 | both coordinates are ≥ 60; left ≤ vw − 180 when vw ≥ 240, and likewise top against vh; the reflected fallback is used iff the first clamped candidate is strictly within 150 of the pointer; otherwise the first candidate is kept and lies at least 150 away |
| `Dodge.NoFallbackWhenPointerHasRoom` | app/page.tsx:164-182 | when the pointer is at least 150 inside every edge of the padded area, clamping cannot pull the candidate back within 150 of it, so the fallback is never taken |
| `Dodge.CentredPointerScenario` | app/page.tsx:156-182 | with the pointer at (500, 400) in a 1000×800 viewport the button lands in [60, 820]×[60, 620], at least 150 from the pointer, without the fallback |
| `Dodge.Question.constructor` | app/page.tsx:91-99 | the page starts with 0 attempts, not accepted, the No button in the card and no shaking |
| `Dodge.Question.DodgeNo` | app/page.tsx:154-192 | from 10 attempts on nothing changes; below that the attempt count rises by exactly 1, the button moves to the computed in-viewport placement, and shaking is switched on iff the count before the dodge was ≥ 5; the position is absent exactly while the count is 0 |
| `Dodge.Question.EndShake` | app/page.tsx:190 | the shake timer clears the shaking flag |
| `Dodge.Question.ClickYes` | app/page.tsx:525-527 | a Yes click accepts at any attempt count |
| `Dodge.Question.HoverNo` | app/page.tsx:538-558 | hovering the No button dodges iff the question is open and fewer than 10 attempts were made: the count rises by 1, the button moves to the computed in-viewport placement, and shaking is switched on iff the earlier count was ≥ 5; otherwise nothing changes |
| `Dodge.Question.ClickNo` | app/page.tsx:558-559 | a click on the No button accepts exactly when it is the fixed button and has surrendered (≥ 10 attempts) |
| `Dodge.Question.TouchNo` | app/page.tsx:543-566 | a touch on the open question accepts iff the count is ≥ 10, leaving count, position and shaking as they were; otherwise it dodges like a hover: count + 1, the computed in-viewport placement, shaking switched on iff the earlier count was ≥ 5 |
| `Sparkles.NewSparkle` | app/page.tsx:133-139 | a new sparkle takes the counter's value as its id, lies within ±60 by ±40 pixels of the button centre, is 4–12 pixels large and fully opaque |
| `Sparkles.SpawnIntervalBounds` | app/page.tsx:131-141 | while sparkles spawn (4 to 10 attempts) the interval lies between 100 and 160 ms and drops by 10 ms per attempt |
| `Sparkles.SpawnInterval` | app/page.tsx:141 | the spawn interval never exceeds 200 ms and is at least 100 ms up to 10 attempts; `SpawnIntervalBounds` gives its steps |
| `Sparkles.LastAtMost` | app/page.tsx:140 | `slice(-n)` for a positive n yields the last min(n, length) elements |
| `Sparkles.Appended` | app/page.tsx:140 | an append yields 1 to 13 sparkles with the new one last; `AppendedShape` gives the rest |
| `Sparkles.Pruned` | app/page.tsx:149 | a prune shortens a non-empty buffer by exactly one and leaves an empty one empty; `PrunedShape` says which one goes |
| `Sparkles.AppendedShape` | app/page.tsx:140 | an append yields at most 13 sparkles: the last min(12, length) earlier ones in order, then the new one last |
| `Sparkles.PrunedShape` | app/page.tsx:149 | a prune removes exactly the first (oldest) sparkle and keeps the rest in order |
| `Sparkles.AppendKeepsIdsIncreasing` | app/page.tsx:133-140 | appending a sparkle numbered by the counter keeps ids strictly increasing and below the advanced counter |
| `Sparkles.PruneKeepsIdsIncreasing` | app/page.tsx:146-152 | pruning keeps ids strictly increasing |
| `Sparkles.SparkleField.constructor` | app/page.tsx:98-103 | the buffer starts empty with the counter at 0 |
| `Sparkles.SparkleField.Spawn` | app/page.tsx:129-143 | a tick appends a sparkle and advances the counter only when attempts ≥ 4 and the question is open; otherwise nothing changes; the buffer keeps at most 13 sparkles with strictly increasing ids below the counter |
| `Sparkles.SparkleField.Prune` | app/page.tsx:145-152 | the clean-up timer leaves exactly the buffer without its oldest entry, keeping the invariant |
| `Typing.Schedule` | app/page.tsx:357-386 | nothing is ever scheduled again exactly in phase 3; a complete line in phase 0 or 2 changes phase at once, with no timer; the 50 ms tick is armed exactly in phases 0 and 2 while the line is incomplete; the 500 ms pause exactly in phase 1 |
| `Typing.Advance` | app/page.tsx:357-386 | one run keeps the index within the current line; the phase only moves forward by one or stays; in phases 0 and 2 a tick adds exactly 1 to the index; 1 → 2 resets the index to 0; a line that is complete moves 0 → 1 and 2 → 3 keeping the index; 3 is terminal |
| `Typing.TypeLine` | app/page.tsx:370-385 | n ticks in a typing phase reveal exactly n more code points, never past the line |
| `Typing.FullReveal` | app/page.tsx:356-386 | from the start, after \|message 1\| + \|message 2\| + 3 runs the machine is in phase 3 with the whole second line counted |
| `Typing.DoneStaysDone` | app/page.tsx:368 | phase 3 never changes again |
| `Typing.Prefix` | app/page.tsx:664 | `slice(0, n)` of a line is a prefix of it of length min(n, length) |
| `Typing.ShownLine1` | app/page.tsx:661-665 | the first paragraph is always a prefix of the first line and is the whole line once phase 0 is over |
| `Typing.ShownLine2` | app/page.tsx:686-690 | the second paragraph is always a prefix of the second line, empty before phase 2 and the whole line in phase 3 |
| `Typing.CursorOnLine1` | app/page.tsx:674-676 | the first cursor shows only while the first paragraph is shorter than its line |
| `Typing.CursorOnLine2` | app/page.tsx:691-693 | the second cursor shows only while the second paragraph is shorter than its line |
| `Typing.CursorWhileTyping` | app/page.tsx:661-696 | a cursor shows iff the phase is 0 or 2 and the index is below that line's code-point length, and never on both lines |
| `Typing.ShownTextGrows` | app/page.tsx:661-696 | each shown line is always a prefix of its message; one run of the effect only extends it, and a tick while typing lengthens the line being typed by exactly one code point |
| `Typing.Typewriter.constructor` | app/page.tsx:104-105 | typing starts in phase 0 with nothing revealed |
| `Typing.Typewriter.Step` | app/page.tsx:357-386 | before acceptance nothing changes; after it, the state moves as `Advance` says and stays within the reachable states |
| `Fireworks.PaletteIndex` | app/page.tsx:250 | a palette pick is a valid index into the ten colours |
| `Fireworks.NewRocket` | app/page.tsx:246-258 | a new rocket starts at the bottom edge, between 15% and 85% of the width; it rises at a speed in (−12, −8], aims at 15–50% of the height, and has a palette colour |
| `Fireworks.NextLaunch` | app/page.tsx:289-292 | a launch moves the watermark into [time + 400, time + 800); without a launch it is unchanged |
| `Fireworks.Launched` | app/page.tsx:289-292 | a frame adds at most one rocket, after the existing ones, and adds one exactly when the time has reached the watermark |
| `Fireworks.Spark` | app/page.tsx:262-282 | each particle starts at the rocket's position with life and opacity 1; it takes the rocket's colour when its keep-colour draw exceeds 0.3, and otherwise the palette colour its colour draw picks; its size is in [3, 9) and its spin in [−0.15, 0.15); it is a heart iff its draw exceeds 0.4 |
| `Fireworks.BurstSize` | app/page.tsx:261 | an explosion makes 30 to 50 particles |
| `Fireworks.Shrapnel` | app/page.tsx:260-283 | an explosion adds 30 to 50 particles, all at the rocket's position with life = alpha = 1 |
| `Fireworks.Climbing` | app/page.tsx:294-313 | a frame never adds rockets; `ClimbingExactly`, `ClimbingBelowTarget` and `ClimbingConcat` say which survive and in what order |
| `Fireworks.Debris` | app/page.tsx:294-313 | the rockets of a frame add at most 50 particles each; `DebrisStartsFull` gives their state |
| `Fireworks.Fade` | app/page.tsx:316-324 | aging a particle lowers its life by exactly 0.012 and sets its opacity to that life when positive and to 0 otherwise; it keeps its colour, size, shape and spin |
| `Fireworks.Survivors` | app/page.tsx:315-329 | a frame never adds particles to the aged list; `SurvivorsExactly`, `SurvivorsLife` and `SurvivorsConcat` say which survive and in what order |
| `Fireworks.ClimbingBelowTarget` | app/page.tsx:294-313 | no rocket left after a frame has reached its target altitude |
| `Fireworks.ClimbingExactly` | app/page.tsx:294-313 | a rocket is removed exactly when its moved position is at or above its target; every survivor is an input rocket moved by its speed |
| `Fireworks.ClimbingConcat` | app/page.tsx:294-313 | surviving rockets keep their relative order |
| `Fireworks.ClimbingKeepsSpeed` | app/page.tsx:294-296 | moving keeps every rocket's speed in (−12, −8] |
| `Fireworks.DebrisStartsFull` | app/page.tsx:309-311 | every particle added by this frame's explosions starts with life and opacity 1 |
| `Fireworks.SurvivorsLife` | app/page.tsx:315-329 | every surviving particle has positive life, opacity equal to its life, and at most the input's maximum life minus one frame's 0.012; if no input has more than 0.012, none survives |
| `Fireworks.SurvivorsExactly` | app/page.tsx:315-329 | a particle is removed exactly when its decremented life is ≤ 0; every survivor is an input particle aged one frame |
| `Fireworks.SurvivorsConcat` | app/page.tsx:315-329 | surviving particles keep their relative order |
| `Fireworks.DebrisAgedInSameFrame` | app/page.tsx:294-329 | particles created by an explosion are aged in the same frame, ending it with life 0.988 |
| `Fireworks.FramesExhaustLife` | app/page.tsx:323-329 | particles with at most (n + 1)·0.012 life are all gone after n + 1 frames |
| `Fireworks.BatchGoneAfter84Frames` | app/page.tsx:323-329 | no particle outlives its countdown: any batch with life ≤ 1 has vanished after 84 frames |
| `Fireworks.ClimbingCloses` | app/page.tsx:294-312 | for rockets rising at least 8 pixels a frame and at most `gap` below their altitude, every survivor of a frame is at most `gap` − 8 below it; with `gap` ≤ 8 none survives |
| `Fireworks.RocketsBurstInTime` | app/page.tsx:294-313 | rockets at most 8(n + 1) pixels below their altitude have all exploded after n + 1 frames |
| `Fireworks.NewRocketBurstsInTime` | app/page.tsx:246-313 | a launched rocket has exploded after n + 1 frames once 8(n + 1) ≥ 85% of the canvas height |
| `Fireworks.Show.constructor` | app/page.tsx:202-221 | the show starts with the canvas size, no rockets, no particles, watermark 0, alive |
| `Fireworks.Show.Stop` | app/page.tsx:350-353 | the clean-up marks the show dead, after which a frame does nothing |
| `Fireworks.Show.LaunchFirework` | app/page.tsx:246-258 | a launch appends one new rocket after the existing ones |
| `Fireworks.Show.Explode` | app/page.tsx:260-283 | an explosion appends its particles after the existing ones |
| `Fireworks.Show.Animate` | app/page.tsx:285-346 | a dead show is unchanged; otherwise the frame launches at most once, moves the watermark as `NextLaunch` says, leaves the climbed survivors as the rockets, and leaves the aged survivors of old particles plus this frame's debris; between frames every particle has life in (0, 1] and opacity equal to it |
| `Fireworks.Show.MoveRockets` | app/page.tsx:294-313 | the backwards rocket loop with splice leaves exactly the climbed survivors in order, and appends the explosions' particles |
| `Fireworks.Show.MoveRocket` | app/page.tsx:295-312 | one pass on rocket i replaces it by its climbed self, or splices it out and appends its explosion's particles when it reaches its altitude |
| `Fireworks.Show.AgeParticles` | app/page.tsx:315-342 | the backwards particle loop with splice leaves exactly the aged survivors in order |

## Left out

- Markup, inline styles, CSS classes and the image are not modelled. This
  includes the card glow, heart bounce, subheading shimmer and bold weight,
  which switch on at 8, 6, 9 and 7 attempts respectively and stay on. They are presentation only.
- Drawing on the canvas is a no-op. This covers `drawHeart`, the arcs and
  rectangles, `save`/`restore` and `globalAlpha`.
- The floating hearts (lines 117-127) are not modelled. They are random
  decoration with no behaviour.
- The `mousemove` listener is not modelled. The page records the pointer
  there and reads `window.innerWidth` and `innerHeight` when it needs them.
  The model takes the pointer, the viewport and the canvas size as
  parameters.
- `setTimeout`, `setInterval`, `requestAnimationFrame` and their
  cancellations are not modelled. Each callback is a method the caller
  invokes. Which timer is armed when, and what its re-arming does, is
  outside the model. For example, the 800 ms prune timeout is re-armed on
  every change of the sparkle list, so it cannot fire while sparkles spawn
  faster than that. The 13-entry bound holds either way.
- `Math.random`, `atan2`, `cos`, `sin` and `sqrt` are lifted out. The
  escape angle points towards the viewport centre with up to 0.75 rad of
  jitter. The particles are spread evenly around the circle. Both facts live
  inside the given cosines and sines, so the model makes no claim about
  direction.
- There is no claim about how often the reflected fallback lands outside the
  safety radius. The code never checks the distance again after it.
- Exact IEEE-754 arithmetic is not modelled. Constants such as 0.012, 0.18
  and 0.98 are exact reals here, and the 84-frame bound is computed with
  exact arithmetic. Particle trajectories (gravity, drag, rotation) are
  modelled as the update equations, with no theorems about them.
- React render batching and the stale `noAttempts` closure in `dodgeNo` are
  not modelled. Each dodge is one atomic step.
- The split of the first line at `"\n"` into `<br/>`-separated spans is
  rendering. The model gives the text that is split.
- The guards in `animate` and `launchFirework` for a missing canvas or
  context are not modelled. In the model the canvas is always present.
  Resizing the window after the effect starts is outside the model.
- `Fireworks.NewRocket`: the bounds on `x` and `targetY` are stated with ≤ on
  both sides. The source's upper bounds are strict for a positive canvas
  size, but equal the lower bound for a zero-sized one.
- `Fireworks.Spark`: the particle's speed of 2 to 6 pixels a frame (line
  265) is not stated. Its direction comes as a lifted cosine and sine that
  the model does not require to form a unit vector.
