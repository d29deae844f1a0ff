/** The LoaderView widget as a state machine. Its state is the enabled
    flag, the current quadrant, the size stored by the last layout, the
    drawable that the next draw paints, and the redraw posts waiting in
    the host's message queue. The host's events are a tap, a layout pass,
    the delivery of one pending redraw post, and a draw. */
module LoaderView {
  import opened JavaInt
  import opened Wrappers
  import opened Quadrants
  import Tiling

  /** Delay of the re-post made by each draw while enabled. */
  const REDRAW_DELAY_MILLIS: nat := 200

  /** Delay of a plain `post`, made when a tap re-enables the view. */
  const POST_DELAY_MILLIS: nat := 0

  /** The two shapes a drawable may carry; only the kind is kept. */
  datatype Shape = Oval | Rectangle

  /** `mDrawable`: its shape, the colour set on its paint (`None` while the
      paint still has the host's default colour) and its bounds. */
  datatype Drawable = Drawable(shape: Shape, color: Option<Int32>, bounds: Rect)

  /** The drawable made by the constructor: a rectangle, no colour set,
      empty bounds. */
  const BlankDrawable: Drawable := Drawable(Rectangle, None, Rect(0, 0, 0, 0))

  /** The view's state. `pending` lists the delays of the posts of the
      redraw runnable still queued, in the order they were made. */
  datatype View = View(
    enabled: bool,
    quadrant: Quadrant,
    width: Int32,
    height: Int32,
    drawable: Drawable,
    pending: seq<nat>)

  /** A freshly constructed view: enabled, at BottomLeft, size 0 by 0,
      holding the blank drawable, nothing posted yet. */
  const Initial: View := View(true, BottomLeft, 0, 0, BlankDrawable, [])

  /** What every reachable state satisfies: a disabled view has no redraw
      waiting, and every post was made with one of the two delays. */
  predicate Valid(v: View) {
    && (!v.enabled ==> v.pending == [])
    && forall k :: 0 <= k < |v.pending| ==> v.pending[k] in {POST_DELAY_MILLIS, REDRAW_DELAY_MILLIS}
  }

  /** The click listener: flip the flag, then either post the redraw
      runnable at once (now enabled) or remove every pending post of it
      (now disabled). */
  function OnClick(v: View): (r: View)
    ensures r.enabled == !v.enabled
    ensures r.enabled ==> r.pending == v.pending + [POST_DELAY_MILLIS]
    ensures !r.enabled ==> r.pending == []
    ensures r.quadrant == v.quadrant && r.width == v.width && r.height == v.height
    ensures r.drawable == v.drawable
  {
    var flipped := v.(enabled := !v.enabled);
    if flipped.enabled then flipped.(pending := v.pending + [POST_DELAY_MILLIS])
    else flipped.(pending := [])
  }

  /** `onLayout`: store the size of the laid-out box, computed in Java `int`. */
  function OnLayout(v: View, left: Int32, top: Int32, right: Int32, bottom: Int32): (r: View)
    ensures INT_MIN <= right - left <= INT_MAX ==> r.width == right - left
    ensures INT_MIN <= bottom - top <= INT_MAX ==> r.height == bottom - top
    ensures r.(width := v.width, height := v.height) == v
  {
    v.(width := Wrap(right - left), height := Wrap(bottom - top))
  }

  /** `updateDrawable`: a new drawable in the current quadrant's colour and
      bounds for the stored size. `coin` is the `nextBoolean()` draw that
      picks an oval (true) or a rectangle (false). */
  function UpdateDrawable(v: View, coin: bool): (r: View)
    ensures r.drawable.color == Some(Color(v.quadrant))
    ensures r.drawable.bounds == Bounds(v.quadrant, v.width, v.height)
    ensures r.drawable.shape == Oval <==> coin
    ensures r.(drawable := v.drawable) == v
  {
    var shape := if coin then Oval else Rectangle;
    v.(drawable := Drawable(shape, Some(Color(v.quadrant)), Bounds(v.quadrant, v.width, v.height)))
  }

  /** The host delivers the pending post at position `i`: it leaves the
      queue, and the redraw runnable runs `updateDrawable` (the
      `invalidate` it then calls only asks the host for a draw). */
  function Deliver(v: View, i: nat, coin: bool): (r: View)
    requires i < |v.pending|
    ensures |r.pending| == |v.pending| - 1
    ensures multiset(r.pending) + multiset{v.pending[i]} == multiset(v.pending)
    ensures r.drawable.color == Some(Color(v.quadrant))
    ensures r.drawable.bounds == Bounds(v.quadrant, v.width, v.height)
    ensures r.(drawable := v.drawable, pending := v.pending) == v
  {
    assert v.pending == v.pending[..i] + [v.pending[i]] + v.pending[i + 1..];
    UpdateDrawable(v.(pending := v.pending[..i] + v.pending[i + 1..]), coin)
  }

  /** `onDraw`: paint the drawable held now, step to the next quadrant
      whether enabled or not, and re-post the runnable with the 200 ms
      delay only while enabled. Returns the new state and what was painted. */
  function OnDraw(v: View): (r: (View, Drawable))
    ensures r.1 == v.drawable
    ensures r.0.quadrant == Next(v.quadrant)
    ensures v.enabled ==> r.0.pending == v.pending + [REDRAW_DELAY_MILLIS]
    ensures !v.enabled ==> r.0.pending == v.pending
    ensures r.0.(quadrant := v.quadrant, pending := v.pending) == v
  {
    var advanced := v.(quadrant := Next(v.quadrant));
    var posted := if v.enabled then advanced.(pending := v.pending + [REDRAW_DELAY_MILLIS]) else advanced;
    (posted, v.drawable)
  }

  // ---------------------------------------------------------------- traces

  /** One host event. `Redraw(i, coin)` delivers the pending post at
      position `i`, with `coin` as the shape draw of `updateDrawable`. */
  datatype Event =
    | Click
    | Layout(left: Int32, top: Int32, right: Int32, bottom: Int32)
    | Redraw(index: nat, coin: bool)
    | Draw

  /** The state after one event; `None` when the event names a post that
      is not pending, which the host cannot deliver. */
  function Step(v: View, e: Event): (r: Option<View>)
    ensures r.None? <==> e.Redraw? && |v.pending| <= e.index
  {
    match e
    case Click => Some(OnClick(v))
    case Layout(l, t, rt, b) => Some(OnLayout(v, l, t, rt, b))
    case Redraw(i, coin) => if i < |v.pending| then Some(Deliver(v, i, coin)) else None
    case Draw => Some(OnDraw(v).0)
  }

  /** The state after a sequence of events, if the host could deliver each. */
  function Run(v: View, es: seq<Event>): Option<View>
    decreases |es|
  {
    if es == [] then Some(v)
    else match Step(v, es[0])
      case None => None
      case Some(u) => Run(u, es[1..])
  }

  /** How many draws a trace holds. */
  function DrawCount(es: seq<Event>): nat {
    if es == [] then 0 else (if es[0].Draw? then 1 else 0) + DrawCount(es[1..])
  }

  // ---------------------------------------------------------------- lemmas

  lemma InitialValid()
    ensures Valid(Initial)
  {
  }

  /** Every event keeps the invariant; in particular a tap that disables
      the view leaves no redraw behind, and a draw while disabled posts
      nothing. */
  lemma StepKeepsValid(v: View, e: Event)
    requires Valid(v)
    requires Step(v, e).Some?
    ensures Valid(Step(v, e).value)
  {
  }

  /** The invariant holds after any trace the host can deliver. */
  lemma {:induction false} RunKeepsValid(v: View, es: seq<Event>)
    requires Valid(v)
    requires Run(v, es).Some?
    ensures Valid(Run(v, es).value)
    decreases |es|
  {
    if es != [] {
      StepKeepsValid(v, es[0]);
      RunKeepsValid(Step(v, es[0]).value, es[1..]);
    }
  }

  /** A disabled view of a valid state has nothing the host could deliver. */
  lemma DisabledNeverRedraws(v: View, i: nat, coin: bool)
    requires Valid(v)
    requires !v.enabled
    ensures Step(v, Redraw(i, coin)).None?
  {
  }

  /** Over any trace the quadrant advances by one step per draw and by
      nothing else, whatever taps, layouts and deliveries come between. */
  lemma {:induction false} RunAdvancesPerDraw(v: View, es: seq<Event>)
    requires Run(v, es).Some?
    ensures Run(v, es).value.quadrant == NextN(v.quadrant, DrawCount(es))
    decreases |es|
  {
    if es != [] {
      var u := Step(v, es[0]).value;
      RunAdvancesPerDraw(u, es[1..]);
      var n := DrawCount(es[1..]);
      if es[0].Draw? {
        NextNAdd(v.quadrant, 1, n);
        assert NextN(v.quadrant, 1) == u.quadrant;
      }
    }
  }

  /** The ordering of the source: a delivered redraw followed by a draw
      paints the cell of the quadrant the view was at, and only then moves
      on to the next one. */
  lemma RedrawThenDrawPaintsCurrentCell(v: View, i: nat, coin: bool)
    requires i < |v.pending|
    ensures var (after, painted) := OnDraw(Deliver(v, i, coin));
      && painted.color == Some(Color(v.quadrant))
      && painted.bounds == Bounds(v.quadrant, v.width, v.height)
      && after.quadrant == Next(v.quadrant)
  {
  }

  /** Two taps with nothing between restore the flag and change neither
      the quadrant, the size nor the drawable; an enabled view ends with
      exactly one fresh zero-delay post, a disabled one with none, in
      every state. */
  lemma ClickTwice(v: View)
    ensures var r := OnClick(OnClick(v));
      && r.enabled == v.enabled
      && r.quadrant == v.quadrant && r.width == v.width && r.height == v.height
      && r.drawable == v.drawable
      && r.pending == (if v.enabled then [POST_DELAY_MILLIS] else [])
  {
  }

  /** The redrawn drawable lies in the current quadrant's cell: for a view
      whose size fits, a pixel is inside its bounds exactly when the pixel
      belongs to that quadrant. */
  lemma UpdateDrawableCoversCell(v: View, coin: bool, x: int, y: int)
    requires Tiling.Fits(v.width, v.height)
    requires 0 <= x < v.width && 0 <= y < v.height
    ensures UpdateDrawable(v, coin).drawable.bounds.Contains(x, y)
      <==> Tiling.CellAt(v.width, v.height, x, y) == v.quadrant
  {
  }

  /** Posts are not de-duplicated: two draws of an enabled view add two
      redraws to whatever was already waiting. */
  lemma DrawsAccumulatePosts(v: View)
    requires v.enabled
    ensures OnDraw(OnDraw(v).0).0.pending == v.pending + [REDRAW_DELAY_MILLIS, REDRAW_DELAY_MILLIS]
  {
  }

  /** Running a trace that starts with a deliverable event is running the
      rest of it from the state that event leads to. */
  lemma RunFirst(v: View, e: Event, es: seq<Event>)
    requires Step(v, e).Some?
    ensures Run(v, [e] + es) == Run(Step(v, e).value, es)
  {
    assert ([e] + es)[1..] == es;
  }

  /** A 100 by 90 view. Its first draw paints the constructor's blank
      drawable and moves on to MiddleLeft; the delivered post then colours
      MiddleLeft's cell, and the next draw paints that and moves to TopLeft. */
  lemma ExampleFirstFrames(coin: bool)
    ensures var es := [Layout(0, 0, 100, 90), Draw, Redraw(0, coin)];
      && Run(Initial, es).Some?
      && var v := Run(Initial, es).value;
      && v.quadrant == MiddleLeft
      && v.pending == []
      && v.drawable.color == Some(Color(MiddleLeft))
      && v.drawable.bounds == Rect(0, 30, 50, 60)
      && OnDraw(v).1 == v.drawable
      && OnDraw(v).0.quadrant == TopLeft
    ensures OnDraw(OnLayout(Initial, 0, 0, 100, 90)).1 == BlankDrawable
  {
    var laidOut := OnLayout(Initial, 0, 0, 100, 90);
    var drawn := OnDraw(laidOut).0;
    assert drawn.pending == [REDRAW_DELAY_MILLIS];
    var redrawn := Deliver(drawn, 0, coin);
    RunFirst(drawn, Redraw(0, coin), []);
    RunFirst(laidOut, Draw, [Redraw(0, coin)]);
    RunFirst(Initial, Layout(0, 0, 100, 90), [Draw, Redraw(0, coin)]);
    assert [Layout(0, 0, 100, 90), Draw, Redraw(0, coin)] == [Layout(0, 0, 100, 90)] + [Draw, Redraw(0, coin)];
    assert [Draw, Redraw(0, coin)] == [Draw] + [Redraw(0, coin)];
    assert [Redraw(0, coin)] == [Redraw(0, coin)] + [];
  }

  /** A 100 by 90 view tapped off and on before its first draw: the
      zero-delay post colours BottomLeft's cell (0, 60, 50, 90), and the
      draw that paints it moves on to MiddleLeft. */
  lemma ExampleTapTapRedraw(coin: bool)
    ensures var es := [Layout(0, 0, 100, 90), Click, Click, Redraw(0, coin)];
      && Run(Initial, es).Some?
      && var v := Run(Initial, es).value;
      && v.drawable.color == Some(Color(BottomLeft))
      && v.drawable.bounds == Rect(0, 60, 50, 90)
      && OnDraw(v).1 == v.drawable
      && OnDraw(v).0.quadrant == MiddleLeft
  {
    var laidOut := OnLayout(Initial, 0, 0, 100, 90);
    var off := OnClick(laidOut);
    var on := OnClick(off);
    assert on.pending == [POST_DELAY_MILLIS];
    RunFirst(on, Redraw(0, coin), []);
    RunFirst(off, Click, [Redraw(0, coin)]);
    RunFirst(laidOut, Click, [Click, Redraw(0, coin)]);
    RunFirst(Initial, Layout(0, 0, 100, 90), [Click, Click, Redraw(0, coin)]);
    assert [Layout(0, 0, 100, 90), Click, Click, Redraw(0, coin)] == [Layout(0, 0, 100, 90)] + [Click, Click, Redraw(0, coin)];
    assert [Click, Click, Redraw(0, coin)] == [Click] + [Click, Redraw(0, coin)];
    assert [Click, Redraw(0, coin)] == [Click] + [Redraw(0, coin)];
    assert [Redraw(0, coin)] == [Redraw(0, coin)] + [];
  }
}
