/**
 * The automation session seen from the screen objects: every interaction
 * with the remote driver is a Command appended to a trace, and the driver
 * is an oracle that answers each command as a function of the commands
 * issued before it. An operation is then a function from a driver and the
 * history so far to a Run: the commands it issued and its outcome.
 */
module DriverTrace {

  datatype Option<+T> = None | Some(value: T)

  datatype Point = Point(x: real, y: real)
  datatype Size = Size(width: real, height: real)
  datatype Rect = Rect(x: real, y: real, width: real, height: real)

  /** A lazily resolved element handle: the selector it was looked up by. */
  datatype Element = Element(selector: string)

  /** One entry of the list handed to `touchPerform`. */
  datatype TouchAction =
    | PressAt(at: Point)
    | WaitMs(ms: int)
    | MoveTo(at: Point)
    | Release
    | TapAt(at: Point)

  /** What a touch-action list means: the three shapes the gestures build. */
  datatype Stroke =
    | Drag(from: Point, to: Point, holdMs: int)
    | Hold(at: Point, ms: int)
    | SingleTap(at: Point)

  datatype Command =
    | Find(selector: string)                        // `$(selector)`
    | WaitDisplayed(element: Element, timeout: int)  // `element.waitForDisplayed({ timeout })`
    | ElementClick(element: Element)
    | ElementSetValue(element: Element, text: string)
    | ElementText(element: Element)
    | ElementDisplayed(element: Element)
    | ElementLocation(element: Element)
    | ElementSize(element: Element)
    | WindowRect
    | Touch(actions: seq<TouchAction>)               // `driver.touchPerform(actions)`
    | Pause(ms: int)                                 // `browser.pause(ms)`
    | KeyboardShown
    | KeyboardHide
    | KeyCode(code: int)                             // `driver.pressKeyCode(code)`

  datatype Error = Timeout(what: string) | NoSuchElement(selector: string) | Transport(reason: string)

  datatype Result<+T> = Ok(value: T) | Err(error: Error)

  /** The commands an operation issued, in order, and how it settled. */
  datatype Run<+T> = Run(trace: seq<Command>, result: Result<T>)

  /**
   * The remote driver. Each field answers one kind of command, given the
   * history of commands already issued in the session. `isAndroid` is the
   * session's platform flag.
   */
  datatype Driver = Driver(
    isAndroid: bool,
    ack: (seq<Command>, Command) -> Result<()>,
    flag: (seq<Command>, Command) -> Result<bool>,
    text: (seq<Command>, Command) -> Result<string>,
    window: seq<Command> -> Result<Rect>,
    location: (seq<Command>, Element) -> Result<Point>,
    size: (seq<Command>, Element) -> Result<Size>)

  datatype Platform = AndroidPlatform | IOSPlatform

  function PlatformOf(d: Driver): Platform {
    if d.isAndroid then AndroidPlatform else IOSPlatform
  }

  /** Issue a command that returns nothing; the driver's answer is the outcome. */
  function Issue(d: Driver, h: seq<Command>, c: Command): Run<()> {
    Run([c], d.ack(h, c))
  }

  /** Issue a command that answers a string (`getText`). */
  function Query(d: Driver, h: seq<Command>, c: Command): Run<string> {
    Run([c], d.text(h, c))
  }

  /** Issue a command that answers a boolean (`isDisplayed`, `isKeyboardShown`). */
  function Probe(d: Driver, h: seq<Command>, c: Command): Run<bool> {
    Run([c], d.flag(h, c))
  }

  /** `browser.pause(ms)`: a client-side sleep that cannot fail. */
  function Sleep(ms: int): Run<()> {
    Run([Pause(ms)], Ok(()))
  }

  /** `$(selector)`: the element object is created even when nothing matches;
      a missing element makes the first command on it fail. */
  function Resolve(selector: string): Run<Element> {
    Run([Find(selector)], Ok(Element(selector)))
  }

  /** The shape of every `$(selector)` run: one lookup, and the element for it. */
  predicate Resolved(el: Run<Element>) {
    el.result.Ok? && el.trace == [Find(el.result.value.selector)]
  }

  /** `await first; await next`: a failure of `first` aborts `next`.
      `next` is evaluated against the history extended by `first.trace`. */
  function Then<U, T>(first: Run<U>, next: Run<T>): Run<T> {
    if first.result.Err? then Run(first.trace, Err(first.result.error))
    else Run(first.trace + next.trace, next.result)
  }

  /** The run performed a prefix of `script`, and all of it if it succeeded. */
  predicate Follows<T>(r: Run<T>, script: seq<Command>) {
    r.trace <= script && (r.result.Ok? ==> r.trace == script)
  }

  lemma ThenFollows<U, T>(a: Run<U>, b: Run<T>, first: seq<Command>, rest: seq<Command>)
    requires Follows(a, first) && Follows(b, rest)
    ensures Follows(Then(a, b), first + rest)
  {
    if a.result.Ok? {
      assert (first + rest)[..|first + b.trace|] == first + b.trace by {
        assert b.trace == rest[..|b.trace|];
      }
    } else {
      assert (first + rest)[..|a.trace|] == first[..|a.trace|];
    }
  }

  lemma AppendAssoc(a: seq<Command>, b: seq<Command>, c: seq<Command>)
    ensures a + b + c == a + (b + c)
  {
  }

  lemma DropLastAppend(a: seq<Command>, b: seq<Command>)
    requires |b| > 0
    ensures (a + b)[..|a + b| - 1] == a + b[..|b| - 1]
  {
  }

  /**
   * Whether the driver refuses `c` after history `g`, each command judged by
   * the answer it gets. A lookup and a client-side pause cannot fail, and the
   * keyboard commands are left out because the one operation that issues them
   * swallows their errors.
   */
  predicate Refused(d: Driver, g: seq<Command>, c: Command) {
    match c
    case Find(_) => false
    case Pause(_) => false
    case KeyboardShown => false
    case KeyboardHide => false
    case ElementText(_) => d.text(g, c).Err?
    case ElementDisplayed(_) => d.flag(g, c).Err?
    case ElementLocation(el) => d.location(g, el).Err?
    case ElementSize(el) => d.size(g, el).Err?
    case WindowRect => d.window(g).Err?
    case _ => d.ack(g, c).Err?
  }

  /** The run went on while the driver accepted, and stopped at the first
      refusal: no command before the last was refused, and the run failed
      exactly when its last command was. */
  predicate StopsAtFirstRefusal<T>(d: Driver, h: seq<Command>, r: Run<T>) {
    && |r.trace| > 0
    && (forall i | 0 <= i < |r.trace| - 1 :: !Refused(d, h + r.trace[..i], r.trace[i]))
    && (r.result.Err? <==> Refused(d, h + r.trace[..|r.trace| - 1], r.trace[|r.trace| - 1]))
  }

  lemma IssueStops(d: Driver, h: seq<Command>, c: Command)
    requires c.WaitDisplayed? || c.ElementClick? || c.ElementSetValue? || c.Touch? || c.KeyCode?
    ensures StopsAtFirstRefusal(d, h, Issue(d, h, c))
  {
    assert [c][..0] == [];
    assert h + [] == h;
  }

  lemma QueryStops(d: Driver, h: seq<Command>, el: Element)
    ensures StopsAtFirstRefusal(d, h, Query(d, h, ElementText(el)))
  {
    assert [ElementText(el)][..0] == [];
    assert h + [] == h;
  }

  lemma SleepStops(d: Driver, h: seq<Command>, ms: int)
    ensures StopsAtFirstRefusal(d, h, Sleep(ms))
  {
  }

  lemma ResolveStops(d: Driver, h: seq<Command>, selector: string)
    ensures StopsAtFirstRefusal(d, h, Resolve(selector))
  {
  }

  lemma ThenStops<U, T>(d: Driver, h: seq<Command>, a: Run<U>, b: Run<T>)
    requires StopsAtFirstRefusal(d, h, a) && StopsAtFirstRefusal(d, h + a.trace, b)
    ensures StopsAtFirstRefusal(d, h, Then(a, b))
  {
    if a.result.Ok? {
      var t := a.trace + b.trace;
      forall i | 0 <= i < |t|
        ensures h + t[..i] == (if i < |a.trace| then h + a.trace[..i] else h + a.trace + b.trace[..i - |a.trace|])
        ensures t[i] == (if i < |a.trace| then a.trace[i] else b.trace[i - |a.trace|])
      {
        if i < |a.trace| {
          assert t[..i] == a.trace[..i];
        } else {
          assert t[..i] == a.trace + b.trace[..i - |a.trace|];
          AppendAssoc(h, a.trace, b.trace[..i - |a.trace|]);
        }
      }
      assert a.trace[..|a.trace| - 1] + [a.trace[|a.trace| - 1]] == a.trace;
    }
  }

  /** Three steps in a row follow the three scripts in a row, and stop at the
      command that failed. */
  lemma ThenThree<A, B, C>(d: Driver, h: seq<Command>, a: Run<A>, b: Run<B>, c: Run<C>,
                           first: seq<Command>, second: seq<Command>, third: seq<Command>)
    requires Follows(a, first) && Follows(b, second) && Follows(c, third)
    requires FailsAtLast(d, h, a) && FailsAtLast(d, h + a.trace, b) && FailsAtLast(d, h + a.trace + b.trace, c)
    ensures Follows(Then(a, Then(b, c)), first + second + third)
    ensures FailsAtLast(d, h, Then(a, Then(b, c)))
  {
    ThenFollows(b, c, second, third);
    ThenFollows(a, Then(b, c), first, second + third);
    AppendAssoc(first, second, third);
    AppendAssoc(h, a.trace, b.trace);
    ThenFailsAtLast(d, h + a.trace, b, c);
    ThenFailsAtLast(d, h, a, Then(b, c));
  }

  lemma ThenThreeStops<A, B, C>(d: Driver, h: seq<Command>, a: Run<A>, b: Run<B>, c: Run<C>)
    requires StopsAtFirstRefusal(d, h, a) && StopsAtFirstRefusal(d, h + a.trace, b)
    requires StopsAtFirstRefusal(d, h + a.trace + b.trace, c)
    ensures StopsAtFirstRefusal(d, h, Then(a, Then(b, c)))
  {
    AppendAssoc(h, a.trace, b.trace);
    ThenStops(d, h + a.trace, b, c);
    ThenStops(d, h, a, Then(b, c));
  }

  /** A failed run stopped at the command that failed: its error is the driver's
      answer to the last command issued, given everything issued before it. The
      answer is read through `d.ack`, so this describes runs whose failing command
      is one the driver acknowledges (waits, clicks, values set, touches, key
      codes), not a probe answered through `d.flag` nor a query through `d.text`. */
  predicate FailsAtLast<T>(d: Driver, h: seq<Command>, r: Run<T>) {
    r.result.Err? ==>
      |r.trace| > 0 && d.ack(h + r.trace[..|r.trace| - 1], r.trace[|r.trace| - 1]) == Err(r.result.error)
  }

  lemma IssueFailsAtLast(d: Driver, h: seq<Command>, c: Command)
    ensures FailsAtLast(d, h, Issue(d, h, c))
  {
    assert [c][..0] == [];
    assert h + [] == h;
  }

  lemma ThenFailsAtLast<U, T>(d: Driver, h: seq<Command>, a: Run<U>, b: Run<T>)
    requires FailsAtLast(d, h, a) && FailsAtLast(d, h + a.trace, b)
    ensures FailsAtLast(d, h, Then(a, b))
  {
    if a.result.Ok? && b.result.Err? {
      DropLastAppend(a.trace, b.trace);
      AppendAssoc(h, a.trace, b.trace[..|b.trace| - 1]);
    }
  }

  /** The touch-action list that performs a stroke. */
  function Encode(s: Stroke): seq<TouchAction> {
    match s
    case Drag(from, to, ms) => [PressAt(from), WaitMs(ms), MoveTo(to), Release]
    case Hold(at, ms) => [PressAt(at), WaitMs(ms), Release]
    case SingleTap(at) => [TapAt(at)]
  }

  /** Reads a touch-action list back as a stroke, if it has one of the three shapes. */
  function Decode(a: seq<TouchAction>): Option<Stroke> {
    if |a| == 4 && a[0].PressAt? && a[1].WaitMs? && a[2].MoveTo? && a[3].Release? then
      Some(Drag(a[0].at, a[2].at, a[1].ms))
    else if |a| == 3 && a[0].PressAt? && a[1].WaitMs? && a[2].Release? then
      Some(Hold(a[0].at, a[1].ms))
    else if |a| == 1 && a[0].TapAt? then
      Some(SingleTap(a[0].at))
    else
      None
  }

  lemma DecodeEncode(s: Stroke)
    ensures Decode(Encode(s)) == Some(s)
  {
  }

  lemma EncodeDecode(a: seq<TouchAction>)
    requires Decode(a).Some?
    ensures Encode(Decode(a).value) == a
  {
  }

  /** The stroke performed by the last command of a trace, if it is a `touchPerform`. */
  function Performed(t: seq<Command>): Option<Stroke> {
    if |t| > 0 && t[|t| - 1].Touch? then Decode(t[|t| - 1].actions) else None
  }

  /** Number of `touchPerform` calls in a trace. */
  function Touches(t: seq<Command>): nat {
    if t == [] then 0 else (if t[0].Touch? then 1 else 0) + Touches(t[1..])
  }

  lemma {:induction false} TouchesAppend(a: seq<Command>, b: seq<Command>)
    ensures Touches(a + b) == Touches(a) + Touches(b)
  {
    if a != [] {
      assert (a + b)[1..] == a[1..] + b;
      TouchesAppend(a[1..], b);
    } else {
      assert a + b == b;
    }
  }

  /** Counting over a single command. */
  lemma CountSingle(c: Command, x: Command)
    ensures Touches([c]) == (if c.Touch? then 1 else 0)
    ensures Occurrences([c], x) == (if c == x then 1 else 0)
  {
    assert [c][1..] == [];
  }

  /** Counting over a command, a block and the rest of a trace. */
  lemma CountRound(c: Command, x: Command, block: seq<Command>, rest: seq<Command>)
    ensures Touches([c] + block + rest) == (if c.Touch? then 1 else 0) + Touches(block) + Touches(rest)
    ensures Occurrences([c] + block + rest, x) == (if c == x then 1 else 0) + Occurrences(block, x) + Occurrences(rest, x)
  {
    CountSingle(c, x);
    TouchesAppend([c], block);
    TouchesAppend([c] + block, rest);
    OccurrencesAppend([c], block, x);
    OccurrencesAppend([c] + block, rest, x);
  }

  /** Number of times `c` occurs in a trace. */
  function Occurrences(t: seq<Command>, c: Command): nat {
    if t == [] then 0 else (if t[0] == c then 1 else 0) + Occurrences(t[1..], c)
  }

  lemma {:induction false} OccurrencesAppend(a: seq<Command>, b: seq<Command>, c: Command)
    ensures Occurrences(a + b, c) == Occurrences(a, c) + Occurrences(b, c)
  {
    if a != [] {
      assert (a + b)[1..] == a[1..] + b;
      OccurrencesAppend(a[1..], b, c);
    } else {
      assert a + b == b;
    }
  }
}
