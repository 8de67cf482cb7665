/**
 * The base screen shared by the Android and iOS screens: waiting, tapping,
 * typing, reading, visibility checks, the keyboard and viewport swipes.
 * Neither platform screen overrides any of these, so one model serves both.
 */
module BaseScreen {
  import opened DriverTrace
  import GestureHelper

  const DefaultTimeout := 10000
  const SwipeMs := 500

  /** What `tap` issues when nothing fails. */
  function TapScript(el: Element): seq<Command> {
    [WaitDisplayed(el, DefaultTimeout), ElementClick(el)]
  }

  /** What `typeText` issues when nothing fails. */
  function TypeScript(el: Element, text: string): seq<Command> {
    [WaitDisplayed(el, DefaultTimeout), ElementSetValue(el, text)]
  }

  /** What `getText` issues when nothing fails. */
  function ReadScript(el: Element): seq<Command> {
    [WaitDisplayed(el, DefaultTimeout), ElementText(el)]
  }

  function WaitForDisplayed(d: Driver, h: seq<Command>, el: Element, timeout: int := DefaultTimeout): (r: Run<()>)
    ensures Follows(r, [WaitDisplayed(el, timeout)]) && |r.trace| == 1
    ensures r.result.Ok? <==> d.ack(h, WaitDisplayed(el, timeout)).Ok?
    ensures FailsAtLast(d, h, r) && StopsAtFirstRefusal(d, h, r)
  {
    IssueFailsAtLast(d, h, WaitDisplayed(el, timeout));
    IssueStops(d, h, WaitDisplayed(el, timeout));
    Issue(d, h, WaitDisplayed(el, timeout))
  }

  /** Wait (default timeout), then click; a failed wait means no click. */
  function Tap(d: Driver, h: seq<Command>, el: Element): (r: Run<()>)
    ensures Follows(r, TapScript(el))
    ensures ElementClick(el) in r.trace <==> d.ack(h, WaitDisplayed(el, DefaultTimeout)).Ok?
    ensures d.ack(h, WaitDisplayed(el, DefaultTimeout)).Ok? ==>
      r.result == d.ack(h + [WaitDisplayed(el, DefaultTimeout)], ElementClick(el))
    ensures FailsAtLast(d, h, r) && StopsAtFirstRefusal(d, h, r)
  {
    var wait := WaitForDisplayed(d, h, el);
    var click := Issue(d, h + wait.trace, ElementClick(el));
    IssueFailsAtLast(d, h + wait.trace, ElementClick(el));
    IssueStops(d, h + wait.trace, ElementClick(el));
    ThenStops(d, h, wait, click);
    ThenFailsAtLast(d, h, wait, click);
    ThenFollows(wait, click, [WaitDisplayed(el, DefaultTimeout)], [ElementClick(el)]);
    Then(wait, click)
  }

  /** Wait, then set the value to exactly `text`; nothing clears the field first. */
  function TypeText(d: Driver, h: seq<Command>, el: Element, text: string): (r: Run<()>)
    ensures Follows(r, TypeScript(el, text))
    ensures (exists c :: c in r.trace && c.ElementSetValue?) <==> d.ack(h, WaitDisplayed(el, DefaultTimeout)).Ok?
    ensures d.ack(h, WaitDisplayed(el, DefaultTimeout)).Ok? ==>
      r.result == d.ack(h + [WaitDisplayed(el, DefaultTimeout)], ElementSetValue(el, text))
    ensures FailsAtLast(d, h, r) && StopsAtFirstRefusal(d, h, r)
  {
    var wait := WaitForDisplayed(d, h, el);
    var typed := Issue(d, h + wait.trace, ElementSetValue(el, text));
    IssueFailsAtLast(d, h + wait.trace, ElementSetValue(el, text));
    IssueStops(d, h + wait.trace, ElementSetValue(el, text));
    ThenStops(d, h, wait, typed);
    ThenFailsAtLast(d, h, wait, typed);
    ThenFollows(wait, typed, [WaitDisplayed(el, DefaultTimeout)], [ElementSetValue(el, text)]);
    var r := Then(wait, typed);
    assert wait.result.Ok? ==> r.trace[1] in r.trace;
    r
  }

  /** Wait, then read the text; once the wait succeeds, the outcome is the
      driver's answer to `getText`, passed on unchanged. */
  function GetText(d: Driver, h: seq<Command>, el: Element): (r: Run<string>)
    ensures Follows(r, ReadScript(el))
    ensures d.ack(h, WaitDisplayed(el, DefaultTimeout)).Err? ==>
      r == Run([WaitDisplayed(el, DefaultTimeout)], Err(d.ack(h, WaitDisplayed(el, DefaultTimeout)).error))
    ensures d.ack(h, WaitDisplayed(el, DefaultTimeout)).Ok? ==>
      r.result == d.text(h + [WaitDisplayed(el, DefaultTimeout)], ElementText(el))
    ensures StopsAtFirstRefusal(d, h, r)
  {
    var wait := WaitForDisplayed(d, h, el);
    var read := Query(d, h + wait.trace, ElementText(el));
    QueryStops(d, h + wait.trace, el);
    ThenStops(d, h, wait, read);
    ThenFollows(wait, read, [WaitDisplayed(el, DefaultTimeout)], [ElementText(el)]);
    assert [WaitDisplayed(el, DefaultTimeout)] + [ElementText(el)] == ReadScript(el);
    Then(wait, read)
  }

  /** Never fails: an error from the driver reads as "not displayed". */
  function IsDisplayed(d: Driver, h: seq<Command>, el: Element): (r: Run<bool>)
    ensures r.trace == [ElementDisplayed(el)] && r.result.Ok?
    ensures d.flag(h, ElementDisplayed(el)).Err? ==> !r.result.value
    ensures d.flag(h, ElementDisplayed(el)).Ok? ==> r.result.value == d.flag(h, ElementDisplayed(el)).value
  {
    var answer := Probe(d, h, ElementDisplayed(el));
    Run(answer.trace, Ok(answer.result.Ok? && answer.result.value))
  }

  /** Asks whether the keyboard is shown and hides it only if so; every error is
      swallowed. */
  function HideKeyboard(d: Driver, h: seq<Command>): (r: Run<()>)
    ensures r.result == Ok(())
    ensures r.trace <= [KeyboardShown, KeyboardHide] && |r.trace| >= 1
    ensures KeyboardHide in r.trace <==> d.flag(h, KeyboardShown) == Ok(true)
    ensures StopsAtFirstRefusal(d, h, r)
  {
    var shown := Probe(d, h, KeyboardShown);
    if shown.result == Ok(true) then Run(shown.trace + [KeyboardHide], Ok(()))
    else Run(shown.trace, Ok(()))
  }

  /** One drag between two points, always with a 500 ms hold. */
  function Swipe(d: Driver, h: seq<Command>, startX: real, startY: real, endX: real, endY: real): (r: Run<()>)
    ensures |r.trace| == 1 && Performed(r.trace) == Some(Drag(Point(startX, startY), Point(endX, endY), SwipeMs))
    ensures r.result == d.ack(h, r.trace[0])
  {
    DecodeEncode(Drag(Point(startX, startY), Point(endX, endY), SwipeMs));
    Issue(d, h, Touch(Encode(Drag(Point(startX, startY), Point(endX, endY), SwipeMs))))
  }

  /** From 80% to 20% of the window height, on the vertical centre line. */
  function SwipeUp(d: Driver, h: seq<Command>): (r: Run<()>)
    ensures GestureHelper.ViewportSwipe(d, h, r)
    ensures d.window(h).Ok? ==>
      var w := d.window(h).value;
      Performed(r.trace) == Some(Drag(Point(w.width / 2.0, w.height * 0.8), Point(w.width / 2.0, w.height * 0.2), SwipeMs))
  {
    match d.window(h)
    case Err(e) => Run([WindowRect], Err(e))
    case Ok(w) =>
      Then(Run([WindowRect], Ok(())),
        Swipe(d, h + [WindowRect], w.width / 2.0, w.height * 0.8, w.width / 2.0, w.height * 0.2))
  }

  /** From 20% to 80% of the window height, on the vertical centre line. */
  function SwipeDown(d: Driver, h: seq<Command>): (r: Run<()>)
    ensures GestureHelper.ViewportSwipe(d, h, r)
    ensures d.window(h).Ok? ==>
      var w := d.window(h).value;
      Performed(r.trace) == Some(Drag(Point(w.width / 2.0, w.height * 0.2), Point(w.width / 2.0, w.height * 0.8), SwipeMs))
  {
    match d.window(h)
    case Err(e) => Run([WindowRect], Err(e))
    case Ok(w) =>
      Then(Run([WindowRect], Ok(())),
        Swipe(d, h + [WindowRect], w.width / 2.0, w.height * 0.2, w.width / 2.0, w.height * 0.8))
  }

  /** The base swipe is the gesture helper's swipe at its default duration. */
  lemma SwipeIsGestureSwipe(d: Driver, h: seq<Command>, startX: real, startY: real, endX: real, endY: real)
    ensures Swipe(d, h, startX, startY, endX, endY) == GestureHelper.Swipe(d, h, startX, startY, endX, endY)
  {
  }

  /** The base upward swipe is the gesture helper's with fraction 0.4. */
  lemma SwipeUpIsGestureSwipeUp(d: Driver, h: seq<Command>)
    ensures SwipeUp(d, h) == GestureHelper.SwipeUp(d, h, 0.4)
  {
  }

  /** The base downward swipe is the gesture helper's with fraction 0.4. */
  lemma SwipeDownIsGestureSwipeDown(d: Driver, h: seq<Command>)
    ensures SwipeDown(d, h) == GestureHelper.SwipeDown(d, h, 0.4)
  {
  }

  lemma SwipeDownReversesUp(d: Driver, h: seq<Command>)
    requires d.window(h).Ok?
    ensures var up := Performed(SwipeUp(d, h).trace).value;
      Performed(SwipeDown(d, h).trace) == Some(Drag(up.to, up.from, up.holdMs))
  {
  }

  // The screen objects always call the operations above as
  // `await screen.op(await this.getter)`: resolve the element, then act on it.

  function TapOnScript(selector: string): seq<Command> {
    [Find(selector)] + TapScript(Element(selector))
  }

  function TypeOnScript(selector: string, text: string): seq<Command> {
    [Find(selector)] + TypeScript(Element(selector), text)
  }

  function ReadOnScript(selector: string): seq<Command> {
    [Find(selector)] + ReadScript(Element(selector))
  }

  function AwaitOnScript(selector: string, timeout: int): seq<Command> {
    [Find(selector), WaitDisplayed(Element(selector), timeout)]
  }

  /** Tap a resolved element: the click is issued exactly when its wait succeeds. */
  function TapOn(d: Driver, h: seq<Command>, el: Run<Element>): (r: Run<()>)
    requires Resolved(el)
    ensures Follows(r, TapOnScript(el.result.value.selector))
    ensures FailsAtLast(d, h, r)
    ensures StopsAtFirstRefusal(d, h, r)
    ensures ElementClick(el.result.value) in r.trace <==> d.ack(h + el.trace, WaitDisplayed(el.result.value, DefaultTimeout)).Ok?
  {
    var tapped := Tap(d, h + el.trace, el.result.value);
    ResolveStops(d, h, el.result.value.selector);
    ThenStops(d, h, el, tapped);
    ThenFollows(el, tapped, el.trace, TapScript(el.result.value));
    ThenFailsAtLast(d, h, el, tapped);
    Then(el, tapped)
  }

  /** Type into a resolved element. */
  function TypeOn(d: Driver, h: seq<Command>, el: Run<Element>, text: string): (r: Run<()>)
    requires Resolved(el)
    ensures Follows(r, TypeOnScript(el.result.value.selector, text))
    ensures FailsAtLast(d, h, r) && StopsAtFirstRefusal(d, h, r)
    ensures ElementSetValue(el.result.value, text) in r.trace <==>
      d.ack(h + el.trace, WaitDisplayed(el.result.value, DefaultTimeout)).Ok?
  {
    var typed := TypeText(d, h + el.trace, el.result.value, text);
    ResolveStops(d, h, el.result.value.selector);
    ThenStops(d, h, el, typed);
    assert typed.trace <= [WaitDisplayed(el.result.value, DefaultTimeout), ElementSetValue(el.result.value, text)];
    ThenFollows(el, typed, el.trace, TypeScript(el.result.value, text));
    ThenFailsAtLast(d, h, el, typed);
    Then(el, typed)
  }

  /** Read a resolved element's text: once its wait succeeds, the driver's answer. */
  function GetTextOn(d: Driver, h: seq<Command>, el: Run<Element>): (r: Run<string>)
    requires Resolved(el)
    ensures Follows(r, ReadOnScript(el.result.value.selector))
    ensures var e := el.result.value;
      d.ack(h + [Find(e.selector)], WaitDisplayed(e, DefaultTimeout)).Ok? ==>
        r.result == d.text(h + [Find(e.selector), WaitDisplayed(e, DefaultTimeout)], ElementText(e))
    ensures var e := el.result.value;
      d.ack(h + [Find(e.selector)], WaitDisplayed(e, DefaultTimeout)).Err? ==>
        r == Run([Find(e.selector), WaitDisplayed(e, DefaultTimeout)], Err(d.ack(h + [Find(e.selector)], WaitDisplayed(e, DefaultTimeout)).error))
    ensures StopsAtFirstRefusal(d, h, r)
  {
    var e := el.result.value;
    var read := GetText(d, h + el.trace, e);
    ResolveStops(d, h, e.selector);
    ThenStops(d, h, el, read);
    ThenFollows(el, read, el.trace, ReadScript(e));
    AppendAssoc(h, [Find(e.selector)], [WaitDisplayed(e, DefaultTimeout)]);
    assert [Find(e.selector)] + [WaitDisplayed(e, DefaultTimeout)] == [Find(e.selector), WaitDisplayed(e, DefaultTimeout)];
    Then(el, read)
  }

  /** Ask whether a resolved element is displayed; never fails. */
  function IsDisplayedOn(d: Driver, h: seq<Command>, el: Run<Element>): (r: Run<bool>)
    requires Resolved(el)
    ensures var e := el.result.value;
      && r.trace == [Find(e.selector), ElementDisplayed(e)] && r.result.Ok?
      && r.result.value == (d.flag(h + [Find(e.selector)], ElementDisplayed(e)) == Ok(true))
  {
    Then(el, IsDisplayed(d, h + el.trace, el.result.value))
  }

  /** Wait for a resolved element with the given timeout. */
  function WaitOn(d: Driver, h: seq<Command>, el: Run<Element>, timeout: int): (r: Run<()>)
    requires Resolved(el)
    ensures Follows(r, AwaitOnScript(el.result.value.selector, timeout))
    ensures FailsAtLast(d, h, r) && StopsAtFirstRefusal(d, h, r)
  {
    var wait := WaitForDisplayed(d, h + el.trace, el.result.value, timeout);
    ResolveStops(d, h, el.result.value.selector);
    ThenStops(d, h, el, wait);
    ThenFollows(el, wait, el.trace, [WaitDisplayed(el.result.value, timeout)]);
    ThenFailsAtLast(d, h, el, wait);
    Then(el, wait)
  }
}
