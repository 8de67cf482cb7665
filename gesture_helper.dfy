/**
 * Gesture synthesis: touch-action lists built from the viewport or from an
 * element's bounds, and the bounded scroll-until-visible loop.
 * Coordinates are exact reals.
 */
module GestureHelper {
  import opened DriverTrace

  const DefaultSwipeMs := 500
  const DefaultPercentage: real := 0.6
  const DefaultLongPressMs := 1000
  const DoubleTapPauseMs := 100
  const DefaultMaxScrolls: nat := 10

  datatype Direction = Up | Down | Left | Right

  /** `swipe(startX, startY, endX, endY, duration = 500)`: one `touchPerform`. */
  function Swipe(d: Driver, h: seq<Command>, startX: real, startY: real, endX: real, endY: real,
                 duration: int := DefaultSwipeMs): (r: Run<()>)
    ensures |r.trace| == 1 && r.trace[0].Touch?
    ensures var a := r.trace[0].actions;
      |a| == 4 && a[0] == PressAt(Point(startX, startY)) && a[1] == WaitMs(duration) &&
      a[2] == MoveTo(Point(endX, endY)) && a[3] == Release
    ensures r.result == d.ack(h, r.trace[0])
  {
    Issue(d, h, Touch(Encode(Drag(Point(startX, startY), Point(endX, endY), duration))))
  }

  /** `getWindowRect` then a swipe between two points of the window; a failed
      query aborts the swipe. */
  function WindowSwipe(d: Driver, h: seq<Command>, dir: Direction, percentage: real): Run<()> {
    match d.window(h)
    case Err(e) => Run([WindowRect], Err(e))
    case Ok(w) =>
      var near := percentage / 2.0;
      var far := 1.0 - percentage / 2.0;
      var h' := h + [WindowRect];
      Then(Run([WindowRect], Ok(())),
        match dir
        case Up => Swipe(d, h', w.width / 2.0, w.height * far, w.width / 2.0, w.height * near)
        case Down => Swipe(d, h', w.width / 2.0, w.height * near, w.width / 2.0, w.height * far)
        case Left => Swipe(d, h', w.width * far, w.height / 2.0, w.width * near, w.height / 2.0)
        case Right => Swipe(d, h', w.width * near, w.height / 2.0, w.width * far, w.height / 2.0))
  }

  /** The shape every viewport swipe has: a window query, then one default-duration
      drag whose outcome is the driver's answer to it. */
  predicate ViewportSwipe(d: Driver, h: seq<Command>, r: Run<()>) {
    && 1 <= |r.trace| <= 2 && r.trace[0] == WindowRect
    && (d.window(h).Err? ==> r == Run([WindowRect], Err(d.window(h).error)))
    && (d.window(h).Ok? ==>
          |r.trace| == 2 && Performed(r.trace).Some? && Performed(r.trace).value.Drag? &&
          Performed(r.trace).value.holdMs == DefaultSwipeMs &&
          r.result == d.ack(h + [WindowRect], r.trace[1]))
  }

  function SwipeUp(d: Driver, h: seq<Command>, percentage: real := DefaultPercentage): (r: Run<()>)
    ensures ViewportSwipe(d, h, r)
    ensures d.window(h).Ok? ==>
      var w := d.window(h).value;
      var g := Performed(r.trace).value;
      && g.from.x == w.width / 2.0 && g.to.x == w.width / 2.0
      && g.from.y + g.to.y == w.height
      && g.from.y - g.to.y == w.height * (1.0 - percentage)
  {
    WindowSwipe(d, h, Up, percentage)
  }

  function SwipeDown(d: Driver, h: seq<Command>, percentage: real := DefaultPercentage): (r: Run<()>)
    ensures ViewportSwipe(d, h, r)
    ensures d.window(h).Ok? ==>
      var w := d.window(h).value;
      var g := Performed(r.trace).value;
      && g.from.x == w.width / 2.0 && g.to.x == w.width / 2.0
      && g.from.y + g.to.y == w.height
      && g.to.y - g.from.y == w.height * (1.0 - percentage)
  {
    WindowSwipe(d, h, Down, percentage)
  }

  function SwipeLeft(d: Driver, h: seq<Command>, percentage: real := DefaultPercentage): (r: Run<()>)
    ensures ViewportSwipe(d, h, r)
    ensures d.window(h).Ok? ==>
      var w := d.window(h).value;
      var g := Performed(r.trace).value;
      && g.from.y == w.height / 2.0 && g.to.y == w.height / 2.0
      && g.from.x + g.to.x == w.width
      && g.from.x - g.to.x == w.width * (1.0 - percentage)
  {
    WindowSwipe(d, h, Left, percentage)
  }

  function SwipeRight(d: Driver, h: seq<Command>, percentage: real := DefaultPercentage): (r: Run<()>)
    ensures ViewportSwipe(d, h, r)
    ensures d.window(h).Ok? ==>
      var w := d.window(h).value;
      var g := Performed(r.trace).value;
      && g.from.y == w.height / 2.0 && g.to.y == w.height / 2.0
      && g.from.x + g.to.x == w.width
      && g.to.x - g.from.x == w.width * (1.0 - percentage)
  {
    WindowSwipe(d, h, Right, percentage)
  }

  /** For a fraction strictly between 0 and 1 and a positive height, the upward
      swipe starts below where it ends and travels (1 - percentage) of the height. */
  lemma SwipeUpMovesUp(d: Driver, h: seq<Command>, percentage: real)
    requires 0.0 < percentage < 1.0
    requires d.window(h).Ok? && d.window(h).value.height > 0.0
    ensures var g := Performed(SwipeUp(d, h, percentage).trace).value;
      g.from.y > g.to.y && g.from.y - g.to.y < d.window(h).value.height
  {
    var g := Performed(SwipeUp(d, h, percentage).trace).value;
    Shrinks(d.window(h).value.height, percentage, g.from.y - g.to.y);
  }

  /** A positive length scaled by (1 - p), for a fraction p strictly between
      0 and 1, stays positive and gets shorter. */
  lemma Shrinks(a: real, p: real, travel: real)
    requires a > 0.0 && 0.0 < p < 1.0
    requires travel == a * (1.0 - p)
    ensures 0.0 < travel < a
  {
    assert a * p < a * 1.0;
    assert travel == a - a * p;
  }

  /** With the default fraction 0.6, the upward swipe runs from 70% to 30% of the height. */
  lemma SwipeUpDefault(d: Driver, h: seq<Command>)
    requires d.window(h).Ok?
    ensures var w := d.window(h).value;
      Performed(SwipeUp(d, h).trace) == Some(Drag(Point(w.width / 2.0, w.height * 0.7),
                                                  Point(w.width / 2.0, w.height * 0.3), 500))
  {
  }

  lemma SwipeDownReversesUp(d: Driver, h: seq<Command>, percentage: real)
    requires d.window(h).Ok?
    ensures var up := Performed(SwipeUp(d, h, percentage).trace).value;
      Performed(SwipeDown(d, h, percentage).trace) == Some(Drag(up.to, up.from, up.holdMs))
  {
  }

  lemma SwipeRightReversesLeft(d: Driver, h: seq<Command>, percentage: real)
    requires d.window(h).Ok?
    ensures var left := Performed(SwipeLeft(d, h, percentage).trace).value;
      Performed(SwipeRight(d, h, percentage).trace) == Some(Drag(left.to, left.from, left.holdMs))
  {
  }

  /** The horizontal swipes are the vertical ones with the axes exchanged. */
  lemma SwipeLeftTransposesUp(d: Driver, h: seq<Command>, e: seq<Command>, percentage: real)
    requires d.window(h).Ok? && d.window(e).Ok?
    requires var w := d.window(h).value; var v := d.window(e).value;
      w.width == v.height && w.height == v.width
    ensures var left := Performed(SwipeLeft(d, h, percentage).trace).value;
      var up := Performed(SwipeUp(d, e, percentage).trace).value;
      left.from == Point(up.from.y, up.from.x) && left.to == Point(up.to.y, up.to.x)
  {
  }

  /** `getLocation` then `getSize`; a failed query aborts the gesture. */
  function Bounds(d: Driver, h: seq<Command>, el: Element): (r: Run<(Point, Size)>) {
    match d.location(h, el)
    case Err(e) => Run([ElementLocation(el)], Err(e))
    case Ok(at) =>
      match d.size(h + [ElementLocation(el)], el)
      case Err(e) => Run([ElementLocation(el), ElementSize(el)], Err(e))
      case Ok(sz) => Run([ElementLocation(el), ElementSize(el)], Ok((at, sz)))
  }

  function Centre(at: Point, sz: Size): Point {
    Point(at.x + sz.width / 2.0, at.y + sz.height / 2.0)
  }

  function Min(a: real, b: real): real {
    if a <= b then a else b
  }

  /** Half the length of an element swipe: 40% of the element's shorter side. */
  function Offset(sz: Size): real {
    Min(sz.width, sz.height) * 0.4
  }

  function SwipeOnElement(d: Driver, h: seq<Command>, el: Element, direction: Direction): (r: Run<()>)
    ensures |r.trace| >= 1 && r.trace[0] == ElementLocation(el)
    ensures Bounds(d, h, el).result.Err? ==> r == Run(Bounds(d, h, el).trace, Err(Bounds(d, h, el).result.error))
    ensures Bounds(d, h, el).result.Ok? ==> |r.trace| == 3 && r.trace[..2] == [ElementLocation(el), ElementSize(el)]
    ensures Bounds(d, h, el).result.Ok? ==>
      var (at, sz) := Bounds(d, h, el).result.value;
      var c := Centre(at, sz);
      && |r.trace| == 3 && Performed(r.trace).Some? && Performed(r.trace).value.Drag?
      && var g := Performed(r.trace).value;
      && g.holdMs == DefaultSwipeMs
      && g.from.x + g.to.x == 2.0 * c.x && g.from.y + g.to.y == 2.0 * c.y
      && (direction == Up ==> g.from.x == g.to.x && g.from.y - g.to.y == 2.0 * Offset(sz))
      && (direction == Down ==> g.from.x == g.to.x && g.to.y - g.from.y == 2.0 * Offset(sz))
      && (direction == Left ==> g.from.y == g.to.y && g.from.x - g.to.x == 2.0 * Offset(sz))
      && (direction == Right ==> g.from.y == g.to.y && g.to.x - g.from.x == 2.0 * Offset(sz))
      && r.result == d.ack(h + Bounds(d, h, el).trace, r.trace[2])
  {
    var b := Bounds(d, h, el);
    if b.result.Err? then Run(b.trace, Err(b.result.error))
    else
      var (at, sz) := b.result.value;
      var c := Centre(at, sz);
      var offset := Offset(sz);
      var h' := h + b.trace;
      var swipe :=
        match direction
        case Up => Swipe(d, h', c.x, c.y + offset, c.x, c.y - offset)
        case Down => Swipe(d, h', c.x, c.y - offset, c.x, c.y + offset)
        case Left => Swipe(d, h', c.x + offset, c.y, c.x - offset, c.y)
        case Right => Swipe(d, h', c.x - offset, c.y, c.x + offset, c.y);
      assert (b.trace + swipe.trace)[..2] == b.trace;
      Then(b, swipe)
  }

  predicate Inside(p: Point, at: Point, sz: Size) {
    at.x <= p.x <= at.x + sz.width && at.y <= p.y <= at.y + sz.height
  }

  /** For an element of non-negative size, both ends of the swipe lie inside it. */
  lemma SwipeOnElementStaysInside(d: Driver, h: seq<Command>, el: Element, direction: Direction)
    requires Bounds(d, h, el).result.Ok?
    requires var sz := Bounds(d, h, el).result.value.1; sz.width >= 0.0 && sz.height >= 0.0
    ensures var (at, sz) := Bounds(d, h, el).result.value;
      var g := Performed(SwipeOnElement(d, h, el, direction).trace).value;
      Inside(g.from, at, sz) && Inside(g.to, at, sz)
  {
  }

  function LongPress(d: Driver, h: seq<Command>, el: Element, duration: int := DefaultLongPressMs): (r: Run<()>)
    ensures |r.trace| >= 1 && r.trace[0] == ElementLocation(el)
    ensures Bounds(d, h, el).result.Err? ==> r == Run(Bounds(d, h, el).trace, Err(Bounds(d, h, el).result.error))
    ensures Bounds(d, h, el).result.Ok? ==>
      var (at, sz) := Bounds(d, h, el).result.value;
      && |r.trace| == 3 && r.trace[..2] == [ElementLocation(el), ElementSize(el)]
      && r.trace[2].Touch? && |r.trace[2].actions| == 3
      && Performed(r.trace) == Some(Hold(Centre(at, sz), duration))
      && r.result == d.ack(h + Bounds(d, h, el).trace, r.trace[2])
  {
    var b := Bounds(d, h, el);
    if b.result.Err? then Run(b.trace, Err(b.result.error))
    else
      var (at, sz) := b.result.value;
      Then(b, Issue(d, h + b.trace, Touch(Encode(Hold(Centre(at, sz), duration)))))
  }

  function TapOnCoordinates(d: Driver, h: seq<Command>, x: real, y: real): (r: Run<()>)
    ensures |r.trace| == 1 && r.trace[0].Touch? && r.trace[0].actions == [TapAt(Point(x, y))]
    ensures Performed(r.trace) == Some(SingleTap(Point(x, y)))
    ensures r.result == d.ack(h, r.trace[0])
  {
    Issue(d, h, Touch(Encode(SingleTap(Point(x, y)))))
  }

  /** Two clicks on the element with a 100 ms pause between them. */
  function DoubleTap(d: Driver, h: seq<Command>, el: Element): (r: Run<()>)
    ensures Follows(r, [ElementClick(el), Pause(DoubleTapPauseMs), ElementClick(el)])
    ensures |r.trace| >= 1
    ensures r.result.Err? ==>
      r.trace[|r.trace| - 1] == ElementClick(el) &&
      r.result == d.ack(h + r.trace[..|r.trace| - 1], ElementClick(el))
    ensures StopsAtFirstRefusal(d, h, r)
  {
    var first := Issue(d, h, ElementClick(el));
    var pause := Sleep(DoubleTapPauseMs);
    var second := Issue(d, h + [ElementClick(el), Pause(DoubleTapPauseMs)], ElementClick(el));
    var r := Then(first, Then(pause, second));
    IssueStops(d, h, ElementClick(el));
    SleepStops(d, h + first.trace, DoubleTapPauseMs);
    IssueStops(d, h + [ElementClick(el), Pause(DoubleTapPauseMs)], ElementClick(el));
    AppendAssoc(h, [ElementClick(el)], [Pause(DoubleTapPauseMs)]);
    assert [ElementClick(el)] + [Pause(DoubleTapPauseMs)] == [ElementClick(el), Pause(DoubleTapPauseMs)];
    assert h + first.trace + pause.trace == h + [ElementClick(el), Pause(DoubleTapPauseMs)];
    ThenThreeStops(d, h, first, pause, second);
    assert first.result.Ok? ==> r.trace == [ElementClick(el), Pause(DoubleTapPauseMs), ElementClick(el)];
    assert first.result.Ok? ==> r.trace[..|r.trace| - 1] == [ElementClick(el), Pause(DoubleTapPauseMs)];
    assert first.result.Err? ==> r.trace[..|r.trace| - 1] == [] && h + [] == h;
    r
  }

  /**
   * The loop of `scrollToElement` from iteration `scrolls` on: probe the
   * element; stop if it is displayed or the budget is spent; otherwise swipe
   * up with the default fraction and go round again. Errors propagate.
   */
  function Scrolling(d: Driver, h: seq<Command>, el: Element, maxScrolls: nat, scrolls: nat): (r: Run<()>)
    requires scrolls <= maxScrolls
    ensures Touches(r.trace) <= maxScrolls - scrolls
    ensures |r.trace| >= 1 && r.trace[0] == ElementDisplayed(el)
    decreases maxScrolls - scrolls
  {
    var probe := ElementDisplayed(el);
    match d.flag(h, probe)
    case Err(e) => Run([probe], Err(e))
    case Ok(shown) =>
      if shown || scrolls == maxScrolls then Run([probe], Ok(()))
      else
        var s := SwipeUp(d, h + [probe]);
        TouchesAppend([probe], s.trace);
        ViewportSwipeTouches(d, h + [probe], s);
        if s.result.Err? then Run([probe] + s.trace, s.result)
        else
          var rest := Scrolling(d, h + [probe] + s.trace, el, maxScrolls, scrolls + 1);
          TouchesAppend([probe] + s.trace, rest.trace);
          Run([probe] + s.trace + rest.trace, rest.result)
  }

  lemma ViewportSwipeTouches(d: Driver, h: seq<Command>, s: Run<()>)
    requires ViewportSwipe(d, h, s)
    ensures Touches(s.trace) == (if d.window(h).Ok? then 1 else 0)
    ensures forall c: Command :: c.ElementDisplayed? ==> Occurrences(s.trace, c) == 0
  {
    if d.window(h).Ok? {
      var t := s.trace[1];
      assert s.trace == [WindowRect] + [t];
      TouchesAppend([WindowRect], [t]);
      CountSingle(WindowRect, WindowRect);
      CountSingle(t, WindowRect);
      forall c: Command | c.ElementDisplayed?
        ensures Occurrences(s.trace, c) == 0
      {
        OccurrencesAppend([WindowRect], [t], c);
        CountSingle(WindowRect, c);
        CountSingle(t, c);
      }
    } else {
      assert s.trace == [WindowRect];
      CountSingle(WindowRect, WindowRect);
      forall c: Command | c.ElementDisplayed?
        ensures Occurrences(s.trace, c) == 0
      {
        CountSingle(WindowRect, c);
      }
    }
  }

  /** One round of the loop, when the probe says "not displayed" and budget
      remains: the run so far is extended by the probe and one upward swipe. */
  lemma ScrollingRound(whole: Run<()>, d: Driver, g: seq<Command>, el: Element, maxScrolls: nat, scrolls: nat,
                       done: seq<Command>)
    requires scrolls < maxScrolls && d.flag(g, ElementDisplayed(el)) == Ok(false)
    requires var rest := Scrolling(d, g, el, maxScrolls, scrolls);
      whole == Run(done + rest.trace, rest.result)
    ensures var s := SwipeUp(d, g + [ElementDisplayed(el)]);
      var next := done + [ElementDisplayed(el)] + s.trace;
      if s.result.Err? then whole == Run(next, s.result)
      else
        var rest := Scrolling(d, g + [ElementDisplayed(el)] + s.trace, el, maxScrolls, scrolls + 1);
        whole == Run(next + rest.trace, rest.result)
  {
    var probe := ElementDisplayed(el);
    ScrollingStep(d, g, el, maxScrolls, scrolls);
    var s := SwipeUp(d, g + [probe]);
    AppendAssoc(done, [probe], s.trace);
    if s.result.Ok? {
      var rest := Scrolling(d, g + [probe] + s.trace, el, maxScrolls, scrolls + 1);
      AppendAssoc(done, [probe] + s.trace, rest.trace);
    }
  }

  lemma ScrollingStep(d: Driver, g: seq<Command>, el: Element, maxScrolls: nat, scrolls: nat)
    requires scrolls < maxScrolls && d.flag(g, ElementDisplayed(el)) == Ok(false)
    ensures var probe := ElementDisplayed(el);
      var s := SwipeUp(d, g + [probe]);
      Scrolling(d, g, el, maxScrolls, scrolls) ==
        if s.result.Err? then Run([probe] + s.trace, s.result)
        else
          var rest := Scrolling(d, g + [probe] + s.trace, el, maxScrolls, scrolls + 1);
          Run([probe] + s.trace + rest.trace, rest.result)
  {
  }

  /** The round in which the loop stops: a displayed element, a spent budget or a failed probe. */
  lemma ScrollingLast(d: Driver, h: seq<Command>, el: Element, maxScrolls: nat, scrolls: nat)
    requires scrolls <= maxScrolls
    requires d.flag(h, ElementDisplayed(el)) != Ok(false) || scrolls == maxScrolls
    ensures var shown := d.flag(h, ElementDisplayed(el));
      Scrolling(d, h, el, maxScrolls, scrolls) ==
        Run([ElementDisplayed(el)], if shown.Err? then Err(shown.error) else Ok(()))
  {
  }

  method ScrollToElement(d: Driver, h: seq<Command>, el: Element, maxScrolls: nat := DefaultMaxScrolls)
    returns (trace: seq<Command>, result: Result<()>)
    ensures Run(trace, result) == Scrolling(d, h, el, maxScrolls, 0)
    ensures Touches(trace) <= maxScrolls
  {
    ghost var whole := Scrolling(d, h, el, maxScrolls, 0);
    var scrolls: nat := 0;
    trace := [];
    var history := h;
    var shown := d.flag(history, ElementDisplayed(el));
    assert whole.trace == trace + whole.trace;
    while shown == Ok(false) && scrolls < maxScrolls
      invariant scrolls <= maxScrolls
      invariant history == h + trace
      invariant shown == d.flag(history, ElementDisplayed(el))
      invariant var rest := Scrolling(d, history, el, maxScrolls, scrolls);
        whole == Run(trace + rest.trace, rest.result)
      decreases maxScrolls - scrolls
    {
      ScrollingRound(whole, d, history, el, maxScrolls, scrolls, trace);
      var s := SwipeUp(d, history + [ElementDisplayed(el)]);
      AppendAssoc(h, trace, [ElementDisplayed(el)] + s.trace);
      AppendAssoc(trace, [ElementDisplayed(el)], s.trace);
      AppendAssoc(history, [ElementDisplayed(el)], s.trace);
      trace := trace + ([ElementDisplayed(el)] + s.trace);
      history := history + ([ElementDisplayed(el)] + s.trace);
      if s.result.Err? {
        result := s.result;
        return;
      }
      scrolls := scrolls + 1;
      shown := d.flag(history, ElementDisplayed(el));
    }
    ScrollingLast(d, history, el, maxScrolls, scrolls);
    trace := trace + [ElementDisplayed(el)];
    result := if shown.Err? then Err(shown.error) else Ok(());
  }

  /** An element already displayed costs one probe and no swipe. */
  lemma ScrollAlreadyDisplayed(d: Driver, h: seq<Command>, el: Element, maxScrolls: nat)
    requires d.flag(h, ElementDisplayed(el)) == Ok(true)
    ensures Scrolling(d, h, el, maxScrolls, 0) == Run([ElementDisplayed(el)], Ok(()))
  {
  }

  /** A round in which the probe says "not displayed" and the swipe succeeds adds
      one swipe and one probe to what the remaining rounds issue. */
  lemma ScrollingSwipedRound(d: Driver, h: seq<Command>, el: Element, maxScrolls: nat, scrolls: nat)
    requires scrolls < maxScrolls && d.flag(h, ElementDisplayed(el)) == Ok(false)
    requires SwipeUp(d, h + [ElementDisplayed(el)]).result.Ok?
    ensures var probe := ElementDisplayed(el);
      var s := SwipeUp(d, h + [probe]);
      var r := Scrolling(d, h, el, maxScrolls, scrolls);
      var rest := Scrolling(d, h + [probe] + s.trace, el, maxScrolls, scrolls + 1);
      && r.result == rest.result
      && Touches(r.trace) == 1 + Touches(rest.trace)
      && Occurrences(r.trace, probe) == 1 + Occurrences(rest.trace, probe)
      && h + r.trace[..|r.trace| - 1] == h + [probe] + s.trace + rest.trace[..|rest.trace| - 1]
  {
    var probe := ElementDisplayed(el);
    ScrollingStep(d, h, el, maxScrolls, scrolls);
    var s := SwipeUp(d, h + [probe]);
    var rest := Scrolling(d, h + [probe] + s.trace, el, maxScrolls, scrolls + 1);
    ViewportSwipeTouches(d, h + [probe], s);
    CountRound(probe, probe, s.trace, rest.trace);
    DropLastAppend([probe] + s.trace, rest.trace);
    AppendAssoc(h, [probe] + s.trace, rest.trace[..|rest.trace| - 1]);
    AppendAssoc(h, [probe], s.trace);
  }

  /** An element that is never displayed, on a session where every window query
      and every swipe succeeds, costs exactly the remaining budget of swipes and
      one more probe than swipes, and the loop returns normally. */
  lemma {:induction false} ScrollNeverDisplayed(d: Driver, h: seq<Command>, el: Element, maxScrolls: nat, scrolls: nat)
    requires scrolls <= maxScrolls
    requires forall g :: d.flag(g, ElementDisplayed(el)) == Ok(false)
    requires forall g :: d.window(g).Ok?
    requires forall g: seq<Command>, c: Command :: c.Touch? ==> d.ack(g, c).Ok?
    ensures var r := Scrolling(d, h, el, maxScrolls, scrolls);
      r.result.Ok? && Touches(r.trace) == maxScrolls - scrolls &&
      Occurrences(r.trace, ElementDisplayed(el)) == maxScrolls - scrolls + 1
    decreases maxScrolls - scrolls, 1
  {
    var probe := ElementDisplayed(el);
    if scrolls < maxScrolls {
      ScrollNeverDisplayedRound(d, h, el, maxScrolls, scrolls);
    } else {
      ScrollingLast(d, h, el, maxScrolls, scrolls);
      CountSingle(probe, probe);
    }
  }

  lemma ScrollNeverDisplayedRound(d: Driver, h: seq<Command>, el: Element, maxScrolls: nat, scrolls: nat)
    requires scrolls < maxScrolls
    requires forall g :: d.flag(g, ElementDisplayed(el)) == Ok(false)
    requires forall g :: d.window(g).Ok?
    requires forall g: seq<Command>, c: Command :: c.Touch? ==> d.ack(g, c).Ok?
    ensures var r := Scrolling(d, h, el, maxScrolls, scrolls);
      r.result.Ok? && Touches(r.trace) == maxScrolls - scrolls &&
      Occurrences(r.trace, ElementDisplayed(el)) == maxScrolls - scrolls + 1
    decreases maxScrolls - scrolls, 0
  {
    var probe := ElementDisplayed(el);
    var s := SwipeUp(d, h + [probe]);
    assert s.result.Ok?;
    ScrollingSwipedRound(d, h, el, maxScrolls, scrolls);
    ScrollNeverDisplayed(d, h + [probe] + s.trace, el, maxScrolls, scrolls + 1);
  }

  /** Every run of the loop that returns normally ends with a probe. */
  lemma {:induction false} ScrollEndsWithProbe(d: Driver, h: seq<Command>, el: Element, maxScrolls: nat, scrolls: nat)
    requires scrolls <= maxScrolls
    ensures var r := Scrolling(d, h, el, maxScrolls, scrolls);
      r.result.Ok? ==> r.trace[|r.trace| - 1] == ElementDisplayed(el)
    decreases maxScrolls - scrolls
  {
    var probe := ElementDisplayed(el);
    if d.flag(h, probe) == Ok(false) && scrolls < maxScrolls {
      var s := SwipeUp(d, h + [probe]);
      if s.result.Ok? {
        var h' := h + [probe] + s.trace;
        ScrollEndsWithProbe(d, h', el, maxScrolls, scrolls + 1);
      }
    }
  }

  /** The loop stops early only on a positive probe: a normal return with
      swipes to spare means the last probe reported the element displayed. */
  lemma {:induction false} ScrollStopsAtDisplayed(d: Driver, h: seq<Command>, el: Element, maxScrolls: nat, scrolls: nat)
    requires scrolls <= maxScrolls
    ensures var r := Scrolling(d, h, el, maxScrolls, scrolls);
      r.result.Ok? && Touches(r.trace) < maxScrolls - scrolls ==>
        d.flag(h + r.trace[..|r.trace| - 1], ElementDisplayed(el)) == Ok(true)
    decreases maxScrolls - scrolls, 1
  {
    var probe := ElementDisplayed(el);
    if d.flag(h, probe) == Ok(false) && scrolls < maxScrolls {
      if SwipeUp(d, h + [probe]).result.Ok? {
        ScrollStopsAfterSwipe(d, h, el, maxScrolls, scrolls);
      } else {
        ScrollingStep(d, h, el, maxScrolls, scrolls);
      }
    } else {
      ScrollingLast(d, h, el, maxScrolls, scrolls);
      assert [probe][..0] == [];
      assert h + [] == h;
    }
  }

  lemma ScrollStopsAfterSwipe(d: Driver, h: seq<Command>, el: Element, maxScrolls: nat, scrolls: nat)
    requires scrolls < maxScrolls && d.flag(h, ElementDisplayed(el)) == Ok(false)
    requires SwipeUp(d, h + [ElementDisplayed(el)]).result.Ok?
    ensures var r := Scrolling(d, h, el, maxScrolls, scrolls);
      r.result.Ok? && Touches(r.trace) < maxScrolls - scrolls ==>
        d.flag(h + r.trace[..|r.trace| - 1], ElementDisplayed(el)) == Ok(true)
    decreases maxScrolls - scrolls, 0
  {
    var probe := ElementDisplayed(el);
    var s := SwipeUp(d, h + [probe]);
    ScrollingSwipedRound(d, h, el, maxScrolls, scrolls);
    ScrollStopsAtDisplayed(d, h + [probe] + s.trace, el, maxScrolls, scrolls + 1);
  }

  /** The loop goes on only past negative probes: every probe before the last
      command answered "not displayed". With `ScrollStopsAtDisplayed`, the
      loop stops at the first positive probe. */
  lemma {:induction false} ScrollProbesNegativeBeforeLast(d: Driver, h: seq<Command>, el: Element, maxScrolls: nat, scrolls: nat)
    requires scrolls <= maxScrolls
    ensures NegativeBeforeLast(d, h, el, Scrolling(d, h, el, maxScrolls, scrolls).trace)
    decreases maxScrolls - scrolls, 1
  {
    var probe := ElementDisplayed(el);
    if d.flag(h, probe) == Ok(false) && scrolls < maxScrolls {
      var s := SwipeUp(d, h + [probe]);
      if s.result.Ok? {
        ScrollProbesNegativeRound(d, h, el, maxScrolls, scrolls);
      } else {
        ScrollingStep(d, h, el, maxScrolls, scrolls);
        SwipeHasNoProbe(d, h + [probe], s);
        NegativeThroughRound(d, h, el, s.trace, []);
        assert [probe] + s.trace + [] == Scrolling(d, h, el, maxScrolls, scrolls).trace;
      }
    } else {
      ScrollingLast(d, h, el, maxScrolls, scrolls);
    }
  }

  lemma ScrollProbesNegativeRound(d: Driver, h: seq<Command>, el: Element, maxScrolls: nat, scrolls: nat)
    requires scrolls < maxScrolls && d.flag(h, ElementDisplayed(el)) == Ok(false)
    requires SwipeUp(d, h + [ElementDisplayed(el)]).result.Ok?
    ensures NegativeBeforeLast(d, h, el, Scrolling(d, h, el, maxScrolls, scrolls).trace)
    decreases maxScrolls - scrolls, 0
  {
    var probe := ElementDisplayed(el);
    var s := SwipeUp(d, h + [probe]);
    var rest := Scrolling(d, h + [probe] + s.trace, el, maxScrolls, scrolls + 1);
    ScrollingStep(d, h, el, maxScrolls, scrolls);
    SwipeHasNoProbe(d, h + [probe], s);
    ScrollProbesNegativeBeforeLast(d, h + [probe] + s.trace, el, maxScrolls, scrolls + 1);
    NegativeThroughRound(d, h, el, s.trace, rest.trace);
  }

  /** Every probe of `el` in `t` but the last command answered "not
      displayed" on the history before it. */
  predicate NegativeBeforeLast(d: Driver, h: seq<Command>, el: Element, t: seq<Command>) {
    forall i | 0 <= i < |t| - 1 && t[i] == ElementDisplayed(el) ::
      d.flag(h + t[..i], ElementDisplayed(el)) == Ok(false)
  }

  /** A negative probe followed by a probe-free swipe keeps the property for
      whatever the later rounds issue. */
  lemma NegativeThroughRound(d: Driver, h: seq<Command>, el: Element, swipe: seq<Command>, rest: seq<Command>)
    requires d.flag(h, ElementDisplayed(el)) == Ok(false)
    requires forall j | 0 <= j < |swipe| :: !swipe[j].ElementDisplayed?
    requires NegativeBeforeLast(d, h + [ElementDisplayed(el)] + swipe, el, rest)
    ensures NegativeBeforeLast(d, h, el, [ElementDisplayed(el)] + swipe + rest)
  {
    var probe := ElementDisplayed(el);
    var pre := [probe] + swipe;
    var t := pre + rest;
    AppendAssoc(h, [probe], swipe);
    forall i | 0 <= i < |t| - 1 && t[i] == probe
      ensures d.flag(h + t[..i], probe) == Ok(false)
    {
      if i == 0 {
        assert t[..0] == [] && h + [] == h;
      } else if i >= |pre| {
        var j := i - |pre|;
        assert t[i] == rest[j];
        assert t[..i] == pre + rest[..j];
        AppendAssoc(h, pre, rest[..j]);
      } else {
        assert false;  // the swipe holds no probe
      }
    }
  }

  /** A viewport swipe issues a window query and a touch, never a probe. */
  lemma SwipeHasNoProbe(d: Driver, g: seq<Command>, s: Run<()>)
    requires ViewportSwipe(d, g, s)
    ensures forall j | 0 <= j < |s.trace| :: !s.trace[j].ElementDisplayed?
  {
    if |s.trace| == 2 {
      assert Performed(s.trace).Some?;
    }
  }
}
