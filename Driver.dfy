/**
 * The automation driver as an oracle.
 *
 * Every `await` on the driver (`$`, `$$`, `browser.waitUntil`, a method of a
 * live element, `browser.pause`, `getWindowSize`, `performActions`,
 * `releaseActions`) is one `Request`. The oracle answers it with `Returned(v)`
 * or `Threw`, and may base its answer on everything asked before, so any
 * deterministic behaviour of a real device is one oracle. Each request and its
 * answer is appended to the trace, and the properties of the layer are stated
 * as facts about that trace.
 */
module Driver {
  import opened Js

  /** The four element states the driver can wait for. */
  datatype WaitKind = Exist | Displayed | Enabled | Clickable

  /** The pointer steps of a touch gesture, as `performActions` receives them. */
  datatype PointerAction =
    | Move(actionType: string, duration: int, origin: Option<string>, x: real, y: real)
    | Down(button: int)
    | Hold(duration: int)          // `{ type: "pause", duration }`
    | Up(button: int)

  /** One input source of a `performActions` call. */
  datatype InputSource = InputSource(sourceType: string, id: string, pointerType: string, actions: seq<PointerAction>)

  /** The methods the layer invokes on a live element object. */
  datatype ElementCommand =
    | WaitFor(kind: WaitKind, timeout: Option<int>, reverse: bool)   // no options object when (None, false)
    | IsEnabled
    | IsDisplayed
    | IsExisting
    | IsDisplayedInViewport
    | Click
    | SetValue(text: Value)
    | ClearValue
    | GetText
    | GetAttribute(name: Value)
    | GetLocation
    | GetSize
    | ScrollIntoView                                                   // `{ block: "center", inline: "center" }`

  datatype Request =
    | FindElement(selector: string)                                    // `$(selector)`
    | FindElements(selector: string)                                   // `$$(selector)`
    | WaitUntilFound(selector: string, many: bool, timeout: int)       // `browser.waitUntil` polling `$` or `$$`
    | OnElement(id: nat, command: ElementCommand)
    | Pause(duration: int)                                             // `browser.pause`
    | GetWindowSize
    | PerformActions(sources: seq<InputSource>)
    | ReleaseActions

  datatype Response = Returned(v: Value) | Threw

  datatype Event = Event(request: Request, response: Response)

  type Trace = seq<Event>

  /** The device: an answer to each request, given the history so far. */
  type Oracle = (Trace, Request) -> Response

  /** What an operation produced, with the trace after it. */
  datatype Done<+T> = Done(value: T, trace: Trace)

  /** One awaited driver call. */
  function Call(o: Oracle, t: Trace, req: Request): Done<Response> {
    var resp := o(t, req);
    Done(resp, t + [Event(req, resp)])
  }

  /**
   * `target.command(...)`: a driver call when `target` is a live element;
   * on any other value JavaScript throws a TypeError and the driver is not asked.
   */
  function CallOn(o: Oracle, t: Trace, target: Value, command: ElementCommand): Done<Response> {
    if target.Element? then Call(o, t, OnElement(target.id, command)) else Done(Threw, t)
  }

  /** The value a `try { return await ... } catch { return neutral }` produces. */
  function Caught(r: Response, neutral: Value): Value {
    if r.Returned? then r.v else neutral
  }

  /** `if (timeout)`: the options object carries the timeout only when it is truthy. */
  function TimeoutOption(timeout: int): Option<int> {
    if timeout != 0 then Some(timeout) else None
  }

  predicate IsWait(req: Request) {
    req.OnElement? && req.command.WaitFor?
  }

  /** Requests that only observe the device: finding, waiting and reading state. */
  predicate IsQuery(req: Request) {
    match req
    case FindElement(_) => true
    case FindElements(_) => true
    case WaitUntilFound(_, _, _) => true
    case OnElement(_, c) =>
      c.WaitFor? || c.IsEnabled? || c.IsDisplayed? || c.IsExisting? || c.IsDisplayedInViewport?
    case _ => false
  }

  /** `t'` continues `t`: nothing already recorded is changed. */
  predicate Extends(t: Trace, t': Trace) {
    |t| <= |t'| && t'[..|t|] == t
  }

  /** Every request appended after `t` is a query. */
  predicate OnlyQueriesAfter(t: Trace, t': Trace) {
    Extends(t, t') && forall i :: |t| <= i < |t'| ==> IsQuery(t'[i].request)
  }

  /**
   * After `t`, `t'` asks only queries except for `command` on an element,
   * asked at most once and only as the last or next-to-last request, and a
   * `Pause(pause)`, which can only come right after that command and last.
   */
  predicate AtMostOnce(t: Trace, t': Trace, command: ElementCommand, pause: int) {
    Extends(t, t') &&
    forall i :: |t| <= i < |t'| && !IsQuery(t'[i].request) ==>
      (t'[i].request.OnElement? && t'[i].request.command == command &&
       |t'| - 2 <= i && (i == |t'| - 2 ==> t'[i + 1].request == Pause(pause))) ||
      (t'[i].request == Pause(pause) && i == |t'| - 1 && |t| < i &&
       t'[i - 1].request.OnElement? && t'[i - 1].request.command == command)
  }

  /** Queries alone meet `AtMostOnce` for any command. */
  lemma QueriesAtMostOnce(t: Trace, t': Trace, command: ElementCommand, pause: int)
    requires OnlyQueriesAfter(t, t')
    ensures AtMostOnce(t, t', command, pause)
  {
  }

  /** Queries, then `command` last, then possibly one pause: `AtMostOnce`. */
  lemma CommandThenPause(t: Trace, c: Trace, r: Trace, command: ElementCommand, pause: int)
    requires |c| > |t| && Extends(t, c) && OnlyQueriesAfter(t, c[..|c| - 1])
    requires c[|c| - 1].request.OnElement? && c[|c| - 1].request.command == command
    requires r == c || (|r| == |c| + 1 && r[..|c|] == c && r[|c|].request == Pause(pause))
    ensures AtMostOnce(t, r, command, pause)
  {
    assert r[..|t|] == c[..|t|];
    forall i | |t| <= i < |c| - 1
      ensures IsQuery(r[i].request)
    {
      assert r[i] == c[..|c| - 1][i];
    }
  }

  /** The number of `performActions` calls in a trace. */
  function Gestures(t: Trace): (n: nat)
    ensures n <= |t|
  {
    if t == [] then 0
    else Gestures(t[..|t| - 1]) + (if t[|t| - 1].request.PerformActions? then 1 else 0)
  }

  /** A trace counts no gesture exactly when none of its requests is a `performActions`. */
  lemma {:induction false} NoGestures(t: Trace)
    ensures Gestures(t) == 0 <==> forall i :: 0 <= i < |t| ==> !t[i].request.PerformActions?
    decreases |t|
  {
    if t != [] {
      var init := t[..|t| - 1];
      NoGestures(init);
      assert forall i :: 0 <= i < |init| ==> init[i] == t[i];
    }
  }

  lemma {:induction false} GesturesAppend(a: Trace, b: Trace)
    ensures Gestures(a + b) == Gestures(a) + Gestures(b)
    decreases |b|
  {
    if b == [] {
      assert a + b == a;
    } else {
      assert (a + b)[..|a + b| - 1] == a + b[..|b| - 1];
      GesturesAppend(a, b[..|b| - 1]);
    }
  }

  /** One more event adds a gesture exactly when it is a `performActions` call. */
  lemma GesturesSnoc(t: Trace, e: Event)
    ensures Gestures(t + [e]) == Gestures(t) + (if e.request.PerformActions? then 1 else 0)
  {
    assert (t + [e])[..|t|] == t;
  }

  lemma OnlyQueriesTransitive(a: Trace, b: Trace, c: Trace)
    requires OnlyQueriesAfter(a, b) && OnlyQueriesAfter(b, c)
    ensures OnlyQueriesAfter(a, c)
  {
    ExtendsTransitive(a, b, c);
    forall i | |a| <= i < |c|
      ensures IsQuery(c[i].request)
    {
      if i < |b| {
        assert c[i] == c[..|b|][i];
      }
    }
  }

  lemma ExtendsTransitive(a: Trace, b: Trace, c: Trace)
    requires Extends(a, b) && Extends(b, c)
    ensures Extends(a, c)
  {
    assert c[..|a|] == c[..|b|][..|a|];
  }
}
