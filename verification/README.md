# LoaderView in Dafny

LoaderView is an Android widget: a loading indicator that moves a coloured
shape around six cells of the view. The cells form a grid of 2 columns by
3 rows. Each redraw picks an oval or a rectangle at random. Each draw steps
to the next cell on a fixed clockwise walk. While the view is enabled it
re-posts its redraw runnable every 200 ms. A tap pauses or resumes it.

This project models the core of `LoaderView.java` with pure functions:

- `java_int.dfy` (module `JavaInt`): Java `int` arithmetic. The model needs
  two's-complement wrap-around (`Wrap`) and division that rounds toward zero
  (`Div`).
- `wrappers.dfy` (module `Wrappers`): the `Option` type.
- `quadrant.dfy` (module `Quadrants`): the `Quadrant` enum.
  - each constant's colour and bounds calculator;
  - `getNext` as `Next`, and `NextN` for n steps;
  - `getRandomQuadrant` as `RandomQuadrant`, which takes the random draws
    as an input sequence.
- `tiling.dfy` (module `Tiling`): what the six calculators promise
  together. Each cell stays inside the view, and the six cells tile the
  view exactly. The columns meet at `width / 2`. The rows meet at
  `height / 3` and at `(2 * height) / 3`.
- `loader_view.dfy` (module `LoaderView`): the view as a state machine.
  - The state holds the enabled flag, the quadrant, the stored size, the
    drawable and the queue of pending redraw posts.
  - The host's events are a tap, a layout, the delivery of one pending post
    (which runs the redraw runnable) and a draw.
  - `Valid` is the invariant: a disabled view has no pending post.

The model follows the order of the code:

- The redraw runnable builds the drawable from the quadrant as it is before
  the next draw advances it.
- The first draw paints the blank rectangle made by the constructor.
- `postDelayed` does not de-duplicate. Each draw of an enabled view adds one
  more 200 ms post (`DrawsAccumulatePosts`).
- Only `removeCallbacks` clears posts, and it clears all of them.

Consequences of that order:

- The queue keeps every post: a draw of an enabled view adds a 200 ms post
  even when one is already waiting.
- The runnable sets the colour and bounds from the quadrant the view holds
  at that moment. The next `onDraw` paints them and only then advances.
- So a 100 by 90 view's first frame is blank, and its second shows
  MiddleLeft's cell (0, 30, 50, 60) (`ExampleFirstFrames`). BottomLeft's
  cell (0, 60, 50, 90) is painted when a tap-off/tap-on posts the runnable
  before the first draw (`ExampleTapTapRedraw`).

## Model

| member | source | states |
|---|---|---|
| JavaInt.Wrap | app/src/main/java/com/tarasantoshchuk/loaderview/LoaderView.java:93 | the Java `int` result of `2 * height`: the unique value in int range congruent to the exact product modulo 2^32, and the exact product whenever that fits |
| JavaInt.Div | app/src/main/java/com/tarasantoshchuk/loaderview/LoaderView.java:51 | Java's `/` by a positive constant: the quotient rounded toward zero, so the remainder lies in [0, b) for a non-negative dividend and in (-b, 0] for a negative one |
| Quadrants.Ordinal | app/src/main/java/com/tarasantoshchuk/loaderview/LoaderView.java:198-204 | the index of each constant in `values()`, whose entry there is that constant |
| Quadrants.Color | app/src/main/java/com/tarasantoshchuk/loaderview/LoaderView.java:43-148 | each quadrant's colour literal as a Java `int`: negative, with alpha byte 0xff (fully opaque) |
| Quadrants.ColorsDistinct | app/src/main/java/com/tarasantoshchuk/loaderview/LoaderView.java:43-148 | different quadrants have different colours |
| Quadrants.Next | app/src/main/java/com/tarasantoshchuk/loaderview/LoaderView.java:178-195 | `getNext` moves to the next ordinal modulo 6 and never returns its argument; the `default` throw has no counterpart because the match covers all six constants |
| Quadrants.NextN | app/src/main/java/com/tarasantoshchuk/loaderview/LoaderView.java:178-195 | n calls of `getNext` move the ordinal forward by n modulo 6 |
| Quadrants.NextNAdd | app/src/main/java/com/tarasantoshchuk/loaderview/LoaderView.java:178-195 | a steps followed by b steps equal a + b steps |
| Quadrants.NextIsPermutation | app/src/main/java/com/tarasantoshchuk/loaderview/LoaderView.java:178-195 | `getNext` is injective and every quadrant is the successor of some quadrant: it is a permutation of the six |
| Quadrants.NextCycleLength | app/src/main/java/com/tarasantoshchuk/loaderview/LoaderView.java:178-195 | for 1 <= n <= 6, n steps return to the start exactly when n = 6 |
| Quadrants.NextCycleNoRepeat | app/src/main/java/com/tarasantoshchuk/loaderview/LoaderView.java:178-195 | within one cycle of six steps no quadrant comes round twice |
| Quadrants.NextCycleReachesAll | app/src/main/java/com/tarasantoshchuk/loaderview/LoaderView.java:178-195 | within one cycle of six steps every quadrant is reached from any start |
| Quadrants.RandomQuadrant | app/src/main/java/com/tarasantoshchuk/loaderview/LoaderView.java:197-208 | the do-while sampler: its result is the first draw naming a quadrant other than `current`, so it is never `current`, and every earlier draw named `current`; it reports no result only when every draw named `current` |
| Tiling.EdgesOrdered | app/src/main/java/com/tarasantoshchuk/loaderview/LoaderView.java:85-105 | the split points satisfy 0 <= width/2 <= width and 0 <= height/3 <= 2*height/3 <= height, and the lower edge equals (2*height)/3 computed exactly |
| Tiling.BoundsInsideView | app/src/main/java/com/tarasantoshchuk/loaderview/LoaderView.java:43-168 | every quadrant's bounds satisfy 0 <= left <= right <= width and 0 <= top <= bottom <= height |
| Tiling.ExactTiling | app/src/main/java/com/tarasantoshchuk/loaderview/LoaderView.java:43-168 | a pixel of the view lies in a quadrant's bounds exactly when that quadrant is the pixel's cell in the column/row point location `CellAt` |
| Tiling.Partition | app/src/main/java/com/tarasantoshchuk/loaderview/LoaderView.java:43-168 | every pixel of the view is covered by some quadrant and by no two different quadrants |
| Tiling.AreasSum | app/src/main/java/com/tarasantoshchuk/loaderview/LoaderView.java:43-168 | the six bounds' areas add up to width * height |
| Tiling.ExampleBounds | app/src/main/java/com/tarasantoshchuk/loaderview/LoaderView.java:64-147 | at 100 by 90, BOTTOM_LEFT gives (0, 60, 50, 90) and TOP_RIGHT gives (50, 0, 100, 30); at height 2 the lower edge is 1, not 2 * (2 / 3) = 0 |
| Tiling.MiddleRowInvertedOnOverflow | app/src/main/java/com/tarasantoshchuk/loaderview/LoaderView.java:85-105 | from height 2^30 on, `2 * height` wraps and the middle row's bottom lies above its top |
| LoaderView.InitialValid | app/src/main/java/com/tarasantoshchuk/loaderview/LoaderView.java:18-234 | the freshly built view (enabled, at BOTTOM_LEFT, nothing posted) satisfies the invariant |
| LoaderView.OnClick | app/src/main/java/com/tarasantoshchuk/loaderview/LoaderView.java:235-246 | a tap flips the flag; enabling appends one zero-delay post; disabling removes every pending post; quadrant, size and drawable are unchanged |
| LoaderView.OnLayout | app/src/main/java/com/tarasantoshchuk/loaderview/LoaderView.java:258-263 | layout stores width = right - left and height = bottom - top (in Java `int`) and changes nothing else |
| LoaderView.UpdateDrawable | app/src/main/java/com/tarasantoshchuk/loaderview/LoaderView.java:277-286 | the new drawable carries the current quadrant's colour and its bounds at the stored size, is an oval exactly when the coin says so, and nothing else in the state changes |
| LoaderView.Deliver | app/src/main/java/com/tarasantoshchuk/loaderview/LoaderView.java:26-32 | running the redraw runnable consumes exactly one pending post (the rest keep their delays) and sets the drawable from the current quadrant; quadrant, flag and size are unchanged |
| LoaderView.OnDraw | app/src/main/java/com/tarasantoshchuk/loaderview/LoaderView.java:266-275 | a draw paints the drawable held before it, advances the quadrant by one `getNext` step whether enabled or not, and appends a 200 ms post exactly when enabled |
| LoaderView.Step | app/src/main/java/com/tarasantoshchuk/loaderview/LoaderView.java:235-275 | every tap, layout and draw can happen; a redraw can happen exactly when the post it names is pending |
| LoaderView.StepKeepsValid | app/src/main/java/com/tarasantoshchuk/loaderview/LoaderView.java:235-275 | every event keeps the invariant: not enabled implies no pending post, and every post has delay 0 or 200 |
| LoaderView.RunKeepsValid | app/src/main/java/com/tarasantoshchuk/loaderview/LoaderView.java:235-275 | the invariant holds after any deliverable sequence of events |
| LoaderView.DisabledNeverRedraws | app/src/main/java/com/tarasantoshchuk/loaderview/LoaderView.java:238-244 | in a valid disabled state the redraw runnable cannot run |
| LoaderView.RunAdvancesPerDraw | app/src/main/java/com/tarasantoshchuk/loaderview/LoaderView.java:266-275 | over any sequence of events the quadrant advances by exactly one `getNext` step per draw, whatever taps, layouts and redraws come between |
| LoaderView.RedrawThenDrawPaintsCurrentCell | app/src/main/java/com/tarasantoshchuk/loaderview/LoaderView.java:266-286 | a delivered redraw followed by a draw paints the colour and cell of the quadrant held before the draw, and the draw then moves to the next quadrant |
| LoaderView.ClickTwice | app/src/main/java/com/tarasantoshchuk/loaderview/LoaderView.java:235-246 | for every state, two taps restore the flag and leave quadrant, size and drawable unchanged; an enabled view ends with exactly one zero-delay post, a disabled one with none |
| LoaderView.UpdateDrawableCoversCell | app/src/main/java/com/tarasantoshchuk/loaderview/LoaderView.java:277-286 | the redrawn drawable covers exactly the pixels of the current quadrant's cell |
| LoaderView.DrawsAccumulatePosts | app/src/main/java/com/tarasantoshchuk/loaderview/LoaderView.java:266-275 | two draws of any enabled view append two 200 ms posts to whatever was pending: `postDelayed` does not de-duplicate |
| LoaderView.ExampleFirstFrames | app/src/main/java/com/tarasantoshchuk/loaderview/LoaderView.java:231-286 | at 100 by 90 the first draw paints the blank drawable and moves to MIDDLE_LEFT; the delivered post colours (0, 30, 50, 60); the next draw paints it and moves to TOP_LEFT |
| LoaderView.ExampleTapTapRedraw | app/src/main/java/com/tarasantoshchuk/loaderview/LoaderView.java:231-286 | at 100 by 90, tapping off and on before the first draw makes the runnable colour BOTTOM_LEFT's (0, 60, 50, 90); drawing it moves to MIDDLE_LEFT |

## Left out

- The Android `View` lifecycle, the constructor overloads and `AttributeSet` handling are host plumbing. Only the state the constructor sets up is kept, as `Initial`.
- `Canvas`, `ShapeDrawable`, `OvalShape`/`RectShape` and `Log.v` are foreign drawing and logging calls. A drawable is kept as a shape tag, a colour and bounds. The paint's default colour before any `setColor` is kept as `None`.
- `invalidate()` only asks the host for a draw, so it is not recorded. A `Draw` event may happen at any time, as the host may draw at any time.
- Real time and the `Handler` are not modelled. Pending posts are a sequence of delays. The host may deliver any pending post, chosen by its index, and there is no clock.
- `java.util.Random` is replaced by its outputs. For `getRandomQuadrant` the outputs are a finite sequence of `nextInt(6)` results; for `updateDrawable` they are a boolean per delivery. The probability that the rejection loop terminates is not modelled: `RandomQuadrant` reports no result when the given draws run out.
- `getRandomQuadrant` is never called in the source. It is modelled on its own and is not part of the state machine.
- `getNext` on `null`: the parameter is `@NonNull`, and a Dafny value is never null.
- Quadrants.RandomQuadrant: a `null` argument is not modelled, since a Dafny `Quadrant` is never null. With `null` the loop would stop after the first draw and return it. The method is never called in the source.
- Tiling.EdgesOrdered: stated only for 0 <= width and 0 <= height < 2^30, because larger heights make `2 * height` wrap (see `Tiling.MiddleRowInvertedOnOverflow`).
- Tiling.BoundsInsideView: stated only for 0 <= width and 0 <= height < 2^30, for the same reason.
- Tiling.ExactTiling: stated only for 0 <= width and 0 <= height < 2^30, for the same reason.
- Tiling.Partition: stated only for 0 <= width and 0 <= height < 2^30, for the same reason.
- Tiling.AreasSum: stated only for 0 <= width and 0 <= height < 2^30, for the same reason.
- LoaderView.UpdateDrawableCoversCell: stated only for sizes with 0 <= width and 0 <= height < 2^30, for the same reason.
