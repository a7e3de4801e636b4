# Scroll-driven animation logic of the wildlife landing page

This project models the logic inside `assets/js/scroll.js`, the scroll and interaction layer of a single-page wildlife-conservation site. It is written in Dafny. The model covers:

- **Scroll-progress phase tables.** Each ScrollTrigger `onUpdate` callback maps a progress `p` in [0, 1] to a record of animation parameters. The tables cover:
  - the hero parallax (`Hero`);
  - the red-panda mosaic zoom (`Mosaic`);
  - the regular and last animal-story slides (`Story`);
  - the horizontal CTA headline (`Cta`);
  - the shrink of the carousel container (`Shrink`).

  Each table is a total function from `real` to a frame record. A parameter that a phase leaves untouched (a `gsap.set` that does not mention it) is `None`.
- **Carousel.**
  - `goToSlide`, `nextSlide` and `prevSlide`;
  - the dot activation;
  - swipe and keyboard navigation (`Carousel`);
  - the autoplay interval bookkeeping (`Autoplay`).
- **Small state machines** (`Toggles`):
  - the one-shot `enableScroll` switch;
  - the rotating proportions statistic;
  - the alternating species figure.
- **The globe's per-particle step** (`Swarm`, with vectors in `Vec`):
  - the repel gate;
  - the quadratic force and the `dist || 0.001` guard;
  - re-projection onto the particle's sphere;
  - the exponential ease towards the drifting target;
  - the polar clamp and the drift offsets.

  The model also covers the canvas pointer in normalised device coordinates (`Pointer`) and the frame clock (`FrameClock`).

The square roots and trigonometry of the particle step are not computed. Their results come in as a `Measure`: the radius of the particle's origin, its distance to the pointer, the length of the pushed position, and the drift target. Lemmas that need them to be true lengths say so with `IsLength(r, v)`, meaning `r >= 0 && r*r == |v|^2`.

A repelled particle does not always end up further from the pointer. The push runs along the pointer-to-particle direction, and the re-projection onto the particle's sphere can undo it: with the pointer at the centre of the globe, a particle at rest is put back exactly where it was (`Swarm.CentredPushIsUndone`). Only the push before re-projection is guaranteed to move the particle away (`Swarm.PushMovesAway`).

Particles stay on their spheres only after a repel step (`Swarm.PushedStaysOnSphere`). The comments in `assets/js/scroll.js` call the idle motion tangential and the target "already on surface", but the idle step eases each coordinate separately, so the particle moves along the chord towards its target and dips inside its sphere. From (1, 0, 0) towards (0, 1, 0) one idle frame lands at (0.92, 0.08, 0), whose squared length is 0.8528 (`Swarm.IdleStepOnChord`, `Swarm.ChordPointInsideSphere`). The model follows the code.

## Model

| member | source | states |
|---|---|---|
| Hero.TextProgress | assets/js/scroll.js:292 | `min(2p, 1)` is at most 1 and at most 2p, non-negative for p >= 0, equals 1 exactly when p >= 0.5, and equals 2p up to 0.5 |
| Hero.Parallax | assets/js/scroll.js:286-295 | container opacity is 1 - textProgress; the headline offset is -100% times the faded share; both stay in range on [0, 1] and are fully faded from p = 0.5; at p = 0 nothing has moved; at p = 1 the hero is raised by 0.33 of the viewport height |
| Hero.ParallaxMonotone | assets/js/scroll.js:288-294 | the hero rises at a constant rate of 0.33 viewport heights per unit of progress, so it rises monotonically and by no more than 0.33 of the viewport height on [0, 1], and the text only fades |
| Mosaic.FullscreenScale | assets/js/scroll.js:327-329 | the zoom covers both viewport dimensions with 15% to spare and is tight in one of them |
| Mosaic.FullscreenScaleEnlarges | assets/js/scroll.js:327-329 | a centre tile narrower than the viewport is enlarged at least 1.15 times |
| Mosaic.Zoom | assets/js/scroll.js:353-374 | the zoom phase goes from scale 1 to F, fades the grid items and gap within their ranges, and hides the text |
| Mosaic.TextIn | assets/js/scroll.js:375-388 | the text phase goes from F to 1.05F, overlay in [0, 0.4], and marks the text visible only once past 10% of the phase |
| Mosaic.Hold | assets/js/scroll.js:389-398 | the hold phase goes from 1.05F to 1.0815F with the overlay at 0.4 and the text fully shown |
| Mosaic.FadeOut | assets/js/scroll.js:399-408 | the fade phase starts at 1.08F and ends at 1.1556F, overlay in [0.4, 0.9], and un-marks the text only in its last 10% |
| Mosaic.Table | assets/js/scroll.js:347-409 | the `zooming` class is set exactly when p > 0.05; scale 1 at p = 0, F at p = 0.3 and 1.0815F at p = 0.75; overlay and text stay in range; the text is fully opaque exactly on [0.55, 0.75]; the end values are reached at p = 1 |
| Mosaic.PhasesMeet | assets/js/scroll.js:353-409 | scale agrees on both sides of 0.3 and 0.55; overlay and text opacity agree at 0.3, 0.55 and 0.75; the text offset agrees at 0.55 and 0.75 |
| Mosaic.ScaleDropsAfterHold | assets/js/scroll.js:395-406 | everywhere on (0.75, 0.754) the scale is below 1.0813F, while the table writes 1.0815F at 0.75: the zoom jumps backwards by at least 0.0002F |
| Mosaic.FixedTable | assets/js/scroll.js:353-409 | the corrected table equals the original up to 0.75 and agrees with it everywhere on the overlay, the text opacity and the final scale |
| Mosaic.FixedTableKeepsText | assets/js/scroll.js:347-409 | the correction leaves the `zooming` class and the text's offset and visible flag exactly as the original table writes them |
| Mosaic.FadeOutFixed | assets/js/scroll.js:399-408 | the corrected fade phase starts at the hold phase's end scale 1.0815F and still ends at 1.1556F, with the overlay and the text's opacity, offset and visible flag as written |
| Mosaic.FixedScaleJoinsHold | assets/js/scroll.js:395-406 | with the correction the scale leaves 1.0815F at p = 0.75 rising by at most 0.3F per unit of progress, so the hold and fade phases meet without a jump |
| Mosaic.FixedScaleSmooth | assets/js/scroll.js:353-409 | with the correction the scale never decreases and changes by at most 4F per unit of progress |
| Story.Wrapper | assets/js/scroll.js:441-471 | the last slide writes wrapper opacity 1 in its first four phases; other slides write no wrapper opacity |
| Story.Entering | assets/js/scroll.js:441-446 | the entering phase keeps the image at scale 1 under a transparent overlay with the caption hidden; only the last slide also pins the caption 30px low (the regular slide at lines 497-501 writes no offset) |
| Story.TextIn | assets/js/scroll.js:448-455 | for local progress t in [0, 1] the caption's opacity is t and its offset lies in [0, 30]px, while the scale stays in [1, 1.08] and the overlay in [0, 0.4] (the same phase runs at lines 503-510) |
| Story.Hold | assets/js/scroll.js:457-464 | the reading phase shows the caption fully at offset 0 under a 0.4 overlay while the scale stays in [1.08, 1.12] (also lines 512-518) |
| Story.TextOut | assets/js/scroll.js:466-473 | the caption's opacity stays in [0, 1] and its offset in [-30, 0]px, while the scale stays in [1.12, 1.18] and the overlay in [0.4, 0.6] (also lines 520-527) |
| Story.Darken | assets/js/scroll.js:529-536 | a regular slide's last phase keeps the image opaque and the caption hidden, with the scale in [1.18, 1.30] and the overlay in [0.6, 1] |
| Story.FadeOut | assets/js/scroll.js:475-483 | the last slide's final phase fades the wrapper and the overlay exactly with the image, whose opacity stays in [0, 1]; the caption is hidden; scale in [1.18, 1.30], overlay in [0.6, 1] |
| Story.Regular | assets/js/scroll.js:497-537 | scale in [1, 1.30], overlay and text opacity in [0, 1], text hidden exactly for p <= 0.25 or p >= 0.7, image fully opaque, endpoints 1/0 and 1.30/1 |
| Story.Last | assets/js/scroll.js:441-484 | same ranges; the wrapper's opacity always equals the image's; both are 1 up to 0.65 and strictly below 1 after; at p = 1 image, wrapper and overlay opacity are 0 |
| Story.PhasesMeet | assets/js/scroll.js:441-537 | neighbouring phases agree on scale, overlay, text opacity and offset at every boundary of both tables |
| Story.RegularScaleRisesSmoothly | assets/js/scroll.js:497-537 | the regular slide's zoom never decreases and grows by at most 0.6 per unit of progress |
| Story.RegularOverlayRisesSmoothly | assets/js/scroll.js:497-537 | the regular slide's overlay never lightens and darkens by at most 3 per unit of progress |
| Story.RegularTextSmooth | assets/js/scroll.js:503-537 | the regular slide's text opacity changes by at most 20/3 per unit of progress, so it has no jumps |
| Story.LastScaleRisesSmoothly | assets/js/scroll.js:441-484 | the last slide's zoom never decreases, at most 0.6 per unit of progress |
| Story.LastOverlayRisesSmoothly | assets/js/scroll.js:441-484 | the last slide's overlay never lightens, at most 3 per unit of progress |
| Story.LastTextSmooth | assets/js/scroll.js:448-484 | the last slide's text opacity has no jumps |
| Story.LastFadesLinearly | assets/js/scroll.js:475-481 | from 0.65 on, the image opacity falls linearly to exactly 0 at p = 1 |
| Cta.TextWidthVw | assets/js/scroll.js:759-763 | the headline width in vw times the viewport width is the width in px times 100 |
| Cta.TotalTravel | assets/js/scroll.js:758-765 | the travel beyond the fixed 110vw, times the viewport width, is the headline width in px times 100 (the text width in vw), so the travel is at least 110vw |
| Cta.XPos | assets/js/scroll.js:758-783 | the headline starts at 100vw and ends with its right edge 10vw left of the viewport |
| Cta.XPosStrictlyDecreasing | assets/js/scroll.js:776-779 | the headline moves strictly leftwards as progress grows |
| Cta.XPosBetweenEnds | assets/js/scroll.js:776-779 | on [0, 1] the headline stays between its two end positions |
| Shrink.Container | assets/js/scroll.js:993-1006 | scale and offset move in lock-step with the opacity (scale 0.85 + 0.15·opacity, offset 30·(1 - opacity)); opacity is 1 - p; ranges and end frames |
| Shrink.ContainerMonotone | assets/js/scroll.js:993-1006 | scrolling on shrinks, fades and lowers the container |
| Carousel.Initial | assets/js/scroll.js:796-798 | a carousel with at least one slide starts valid, on slide 0 |
| Carousel.Dots | assets/js/scroll.js:827-835 | one dot per slide, the dot at i active exactly when i is the current slide |
| Carousel.GoTo | assets/js/scroll.js:814-893 | direction is +1 exactly when moving to a higher index; the leaving content exits 30px opposite to where the entering content comes from; the track moves to -100·index %; the dots show only the target |
| Carousel.NextIndex | assets/js/scroll.js:896-898 | the next index is in range and is current + 1, or wraps from the last slide to 0 |
| Carousel.PrevIndex | assets/js/scroll.js:900-902 | the previous index is in range and is current - 1, or wraps from 0 to the last slide |
| Carousel.Next | assets/js/scroll.js:896-898 | next stays valid and moves forwards unless wrapping from the last slide |
| Carousel.Prev | assets/js/scroll.js:900-902 | prev stays valid and moves backwards unless wrapping from the first slide |
| Carousel.NextPrevInverse | assets/js/scroll.js:896-902 | next then prev, and prev then next, both return to the starting slide |
| Carousel.GoToKeepsValid | assets/js/scroll.js:814-835 | going to any existing slide keeps the carousel valid and exactly its dot active |
| Carousel.Swipe | assets/js/scroll.js:935-944 | a swipe does nothing exactly when it is at most 50px either way; more than 50px leftwards is next, more than 50px rightwards is prev |
| Carousel.ArrowKeysUndoEachOther | assets/js/scroll.js:909-920 | while the carousel is in view, ArrowLeft then ArrowRight, and ArrowRight then ArrowLeft, both return to the starting slide |
| Carousel.SwipeKeepsValid | assets/js/scroll.js:935-944 | whatever a swipe does, the carousel stays on a valid slide |
| Carousel.Keyboard | assets/js/scroll.js:909-920 | arrow keys act exactly when the carousel overlaps the viewport; left is prev and right is next |
| Autoplay.StartAutoPlay | assets/js/scroll.js:947-949 | starting adds one new live interval and overwrites the held handle |
| Autoplay.ClearHeld | assets/js/scroll.js:961-963 | clearing stops the held interval but keeps the stale handle |
| Autoplay.ResetAutoPlay | assets/js/scroll.js:951-956 | resetting replaces the held interval with a new one and keeps at most one live |
| Autoplay.SetupStartsOne | assets/js/scroll.js:974 | the initial `goToSlide(0)` leaves exactly one live interval |
| Autoplay.HoverNavigateLeaveLeaks | assets/js/scroll.js:892-967 | hover, navigate, leave leaves two live intervals, one of which is no longer held |
| Autoplay.CycleLeaksOne | assets/js/scroll.js:892-967 | from a held, live interval, one hover-navigate-leave cycle leaves one more live interval, and the newest is again held and live |
| Autoplay.LeakGrows | assets/js/scroll.js:892-967 | every such cycle leaks one more interval, without bound, and the newest interval stays held and live |
| Autoplay.RunAppend | assets/js/scroll.js:892-967 | running two event sequences in turn is running their concatenation |
| Autoplay.Apply | assets/js/scroll.js:946-967 | mouseenter keeps the handle and never adds an interval (the live set only shrinks); navigate and mouseleave both start a new interval and hold it |
| Autoplay.ApplyFixed | assets/js/scroll.js:961-967 | with mouseleave resetting instead of starting, every event keeps at most the held interval live |
| Autoplay.FixedNeverLeaks | assets/js/scroll.js:892-967 | with the correction no event sequence ever has more than one live interval |
| Toggles.EnableScroll | assets/js/scroll.js:68-79 | the first call enables scrolling, starts the smooth scroller if there is one and shows the indicator once; later calls change nothing |
| Toggles.EnableIsOneShot | assets/js/scroll.js:68-79 | however many times it is called, the indicator is shown exactly once |
| Toggles.Rotate | assets/js/scroll.js:652 | the next proportion index is in range: the next one, or back to the first after the last |
| Toggles.RotateTimesAdd | assets/js/scroll.js:652 | a + b rotations are a rotations followed by b |
| Toggles.RotateTimesAdvances | assets/js/scroll.js:652 | before wrapping, k rotations advance by exactly k |
| Toggles.RotateTimesWraps | assets/js/scroll.js:652 | from entry i, len - i rotations reach the first entry |
| Toggles.RotationVisitsAll | assets/js/scroll.js:652 | a full round returns to the start, and every entry is shown within one round |
| Toggles.Toggle | assets/js/scroll.js:585-616 | a tick flips which figure is shown, sends the leaving one up (number) or down (percentage) and leaves a consistent screen |
| Toggles.ToggleTwiceRestores | assets/js/scroll.js:585-620 | the initial screen is consistent and two ticks restore it |
| Swarm.ConfigsSane | assets/js/scroll.js:1285-1288 | both scenes' tunings have positive radius and strength and a return speed in (0, 1) |
| Swarm.Force | assets/js/scroll.js:1328 | the push is non-negative, in (0, S] inside the repel radius, S at the pointer and 0 at the radius |
| Swarm.ForceFallsWithDistance | assets/js/scroll.js:1328 | the push never grows with distance |
| Swarm.SafeLen | assets/js/scroll.js:1329 | the divisor is never 0, equals the distance whenever that is non-zero, and is positive for a length |
| Swarm.Push | assets/js/scroll.js:1331-1334 | seen from the pointer, the pushed position is the old separation scaled by 1 + force/len: the push moves the particle along the line from the pointer through it |
| Swarm.PushIsRadial | assets/js/scroll.js:1326-1334 | seen from the pointer the push scales the separation by 1 + k, with k >= 0 and k > 0 off the pointer |
| Swarm.PushMovesAway | assets/js/scroll.js:1326-1334 | the push never brings a particle closer to the pointer, and moves it strictly away unless it sits on the pointer |
| Swarm.PushAtPointerIsStill | assets/js/scroll.js:1329-1334 | a particle exactly at the pointer is not moved: the 0.001 guard only prevents a division by zero |
| Swarm.Reproject | assets/js/scroll.js:1337-1341 | re-projection scales the pushed point by radius / newRadius; when newRadius is the pushed point's true length, the result has length exactly radius |
| Swarm.Ease | assets/js/scroll.js:1343-1347 | the gap to the target becomes (1 - rate) times the old gap, same sign, and the step never overshoots |
| Swarm.EaseVec | assets/js/scroll.js:1343-1347 | the same for the whole position, coordinate by coordinate |
| Swarm.ClampPolar | assets/js/scroll.js:1313 | the polar angle is kept in [0.1, π - 0.1], unchanged inside, and set to the nearer limit outside |
| Swarm.DriftArguments | assets/js/scroll.js:1305-1309 | at time 0 the drift arguments are the particle's own offsets; on the globe they run at the particle's speed times 0.3 (azimuth) and 0.25 (polar), and in the fallback scene (lines 1493-1497) at its speed times 0.9 and 0.75 |
| Swarm.DriftArgumentsAdvance | assets/js/scroll.js:1305-1309 | at time 0 the arguments are the offsets, and between any two times each advances by the elapsed time times speed times its rate |
| Swarm.Drift | assets/js/scroll.js:1308-1309 | the azimuth offset is at most the swarm amount and the polar offset at most half of it |
| Swarm.TargetOnSphere | assets/js/scroll.js:1316-1318 | for genuine sines and cosines the drift target lies on the particle's own sphere |
| Swarm.Step | assets/js/scroll.js:1297-1348 | particles near the centre are skipped; a particle within the repel radius of an on-canvas pointer is pushed and re-projected, or left alone when the pushed point is near the centre; any other particle eases towards its target |
| Swarm.PushedStaysOnSphere | assets/js/scroll.js:1326-1341 | a re-projected particle is exactly on the sphere of its origin |
| Swarm.CentredPushIsUndone | assets/js/scroll.js:1326-1341 | with the pointer at the globe's centre, a particle at rest is pushed radially and put back exactly where it was |
| Swarm.CentredPushIsRadial | assets/js/scroll.js:1326-1338 | in that case the pushed point is (1 + k) times the particle, with new length (1 + k)·radius |
| Swarm.EaseTimesGap | assets/js/scroll.js:1343-1347 | after k idle frames the gap to a fixed target is (1 - rate)^k times the first gap |
| Swarm.IdleGapShrinks | assets/js/scroll.js:1287-1347 | with the scenes' return speed each idle frame leaves exactly 92% of the gap |
| Swarm.IdleStepCloser | assets/js/scroll.js:1343-1347 | an idle frame strictly shrinks a non-zero gap |
| Swarm.IdleStepOnChord | assets/js/scroll.js:1343-1347 | one idle frame from (1, 0, 0) towards (0, 1, 0) at return speed 0.08, the speed of both scenes, lands at (0.92, 0.08, 0), on the chord between them |
| Swarm.ChordPointInsideSphere | assets/js/scroll.js:1343-1347 | both end points of that step are on the unit sphere, but the landing point's squared length is 0.8528: the idle step leaves the sphere |
| Swarm.StepField | assets/js/scroll.js:1290-1348 | a frame updates every particle by its own step, keeps the field's length and every origin, and leaves skipped particles unchanged |
| Pointer.Move | assets/js/scroll.js:1130-1134 | a move inside the canvas maps to [-1, 1] on both axes, left/right edges to -1/1 and top/bottom to 1/-1 |
| Pointer.ActiveIffLastMove | assets/js/scroll.js:1125-1139 | the pointer repels exactly when the last event was a move: never before the first move and never after a leave |
| FrameClock.Tick | assets/js/scroll.js:1252-1260 | the clock advances by the elapsed wall time in seconds, so it never goes back when the timestamp does not, and moves forward when the timestamp does; the timestamp is recorded and the globe turns by 0.002 |
| FrameClock.FramesTelescope | assets/js/scroll.js:1246-1260 | after any run of frames the clock has advanced by the wall time up to the last frame, and the turn by 0.002 per frame |
| FrameClock.TimeNeverGoesBack | assets/js/scroll.js:1252-1258 | with non-decreasing timestamps the clock never goes back |

## Left out

- Square roots, `atan2`, `acos`, `sin` and `cos` in the particle step are not computed. Their results are inputs, and the lemmas state which relations they must satisfy.
- The Three.js scene is not modelled: the camera, the raycaster and its plane intersection, the inverse world matrix, model loading and the random initial offsets and speeds. They are library calls, asset I/O and randomness. `Swarm.Step` takes the pointer's point in particle space as an input.
- In the fallback globe the pointer's world point is used without the inverse transform, although the particle system is rotated. The model takes the point as given and does not model this mismatch.
- The guard `if (!mouseWorld)` tests a vector object, which is never falsy. On a missed intersection the previous point would be kept. The camera's rays always meet the plane z = 0 here, so the guard is left out.
- GSAP tweens, durations and easing curves, Lenis smooth scrolling, ScrollTrigger registration and scrubbing, `setTimeout` polling, `setInterval` timing, `IntersectionObserver` and `requestAnimationFrame` are not modelled. Only the values they are given are modelled. Phase tables are total in `p`; ScrollTrigger's clamping of progress to [0, 1] appears as `InUnit(p)` premises.
- Floating-point rounding is not modelled. All arithmetic is over exact reals, so boundary agreement is exact in the model and only approximate in JavaScript.
- The mouse-following link tooltip, the footer choreography, the intro sequence and the header's `scrollY > 50` class toggle are not modelled. They are DOM choreography with no computation.
- Carousel slides' image zooms (1.15, 1.05 to 1.12) are not modelled. They are fixed tween targets with no logic.
- Hero.Parallax: its own contract pins the hero offset only at p = 0 and p = 1; the constant rate of 0.33 viewport heights per unit of progress is stated by `Hero.ParallaxMonotone` for every pair of progress values.
- Swarm.Step: the idle branch does not keep a particle on its sphere, because the code eases along the chord to the target; only the repel branch re-projects. The model states the surface property for re-projected particles only.
- FrameClock.Tick: the globe's turn is 0.002 rad per frame, whatever the frame rate, as in the code. The model does not turn this into a turn per second.

## Findings

| source | as written | input that shows it | evidently intended | confidence | as-written member | corrected member |
|---|---|---|---|---|---|---|
| assets/js/scroll.js:395-406 | the hold phase ends at `fullScale * 1.05 * 1.03` = 1.0815F but the fade phase restarts from `fullScale * 1.08` | any p just above 0.75, e.g. p = 0.751: the scale drops from 1.0815F to about 1.0803F | the fade phase continues from where the hold ended, so the zoom never reverses | medium, not executed | Mosaic.ScaleDropsAfterHold | Mosaic.FixedScaleJoinsHold |
| assets/js/scroll.js:892-967 | mouseenter clears the held interval but keeps its handle; a navigation while hovered starts a new one; mouseleave starts another without clearing | initial slide, mouseenter, an arrow key or button, mouseleave: two intervals run, one no longer held by anyone | mouseleave restarts autoplay through `resetAutoPlay`, so at most one interval ever runs | medium, not executed | Autoplay.LeakGrows | Autoplay.FixedNeverLeaks |
