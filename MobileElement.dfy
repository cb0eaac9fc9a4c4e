/**
 * The element handle of element/MobileElement.js.
 *
 * A `MobileElement` holds only a selector. Every operation looks the live
 * element up again (`$(selector)`), branches on what the driver answers and
 * turns a thrown error into a neutral value, so no operation of the handle
 * throws. Each operation is a function of the oracle and the trace so far,
 * returning its JavaScript result together with the extended trace.
 *
 * The default arguments `config.waitforTimeout` and `config.pause` come from
 * the runner configuration, which is not part of this model; callers pass the
 * timeout and pause explicitly.
 */
module Mobile {
  import opened Js
  import opened Driver
  import Utilities
  import Constant
  import Swipe

  datatype MobileElement = MobileElement(selector: string)

  /** What `$`/`$$` answered is a value, not null or undefined. */
  predicate Found(r: Response) {
    r.Returned? && !Utilities.IsUndefined(r.v)
  }

  predicate ReturnedTruthy(r: Response) {
    r.Returned? && Truthy(r.v)
  }

  /** `await $(req)` or `await $$(req)`, with `isUndefined` mapped to null and a throw caught as null. */
  function Lookup(o: Oracle, t: Trace, req: Request): (r: Done<Value>)
    requires req.FindElement? || req.FindElements?
    ensures r.trace == t + [Event(req, o(t, req))]
    ensures !r.value.Undefined?
    ensures r.value.Null? <==> !Found(o(t, req))
    ensures !r.value.Null? ==> o(t, req) == Returned(r.value)
  {
    var c := Call(o, t, req);
    Done(if Found(c.value) then c.value.v else Null, c.trace)
  }

  /** `getElement`. */
  function GetElement(e: MobileElement, o: Oracle, t: Trace): Done<Value> {
    Lookup(o, t, FindElement(e.selector))
  }

  /** `getElements`. */
  function GetElements(e: MobileElement, o: Oracle, t: Trace): Done<Value> {
    Lookup(o, t, FindElements(e.selector))
  }

  /**
   * `waitUntilElement` (`many == false`) and `waitUntilElements`: `false`
   * when `browser.waitUntil` throws, and no value at all when it resolves.
   */
  function WaitUntilPresent(e: MobileElement, o: Oracle, t: Trace, many: bool, timeout: int): (r: Done<Value>)
    ensures var req := WaitUntilFound(e.selector, many, timeout);
            r.trace == t + [Event(req, o(t, req))] &&
            (r.value == Bool(false) <==> o(t, req).Threw?) &&
            (o(t, req).Returned? ==> r.value.Undefined?)
    ensures r.value != Bool(true)
  {
    var c := Call(o, t, WaitUntilFound(e.selector, many, timeout));
    Done(if c.value.Threw? then Bool(false) else Undefined, c.trace)
  }

  /** The absence test of a positive wait: `!element` in `waitForExist`, `element === null` in the others. */
  predicate Absent(kind: WaitKind, element: Value) {
    if kind.Exist? then !Truthy(element) else element.Null?
  }

  /** `waitForExist`, `waitForDisplayed`, `waitForEnabled`, `waitForClickable`. */
  function WaitForState(e: MobileElement, o: Oracle, t: Trace, kind: WaitKind, timeout: int): Done<Value> {
    var el := GetElement(e, o, t);
    if Absent(kind, el.value) then Done(Bool(false), el.trace)
    else
      var w := CallOn(o, el.trace, el.value, WaitFor(kind, TimeoutOption(timeout), false));
      Done(Caught(w.value, Bool(false)), w.trace)
  }

  /** `waitForNotExist`, `waitForNotDisplayed`, `waitForNotEnabled`, `waitForNotClickable`. */
  function WaitForNotState(e: MobileElement, o: Oracle, t: Trace, kind: WaitKind, timeout: int): Done<Value> {
    var el := GetElement(e, o, t);
    if el.value.Null? then Done(Bool(true), el.trace)
    else
      var w := CallOn(o, el.trace, el.value, WaitFor(kind, TimeoutOption(timeout), true));
      Done(Caught(w.value, Bool(true)), w.trace)
  }

  /**
   * A positive wait looks the element up and then asks the driver at most one
   * wait: with `{timeout}` only when the timeout is truthy, without `reverse`.
   * An absent element gives `false` with no wait; a thrown wait gives `false`;
   * otherwise the result is what the driver's wait answered. Only queries are
   * issued.
   */
  lemma PositiveWait(e: MobileElement, o: Oracle, t: Trace, kind: WaitKind, timeout: int)
    ensures var r := WaitForState(e, o, t, kind, timeout);
            OnlyQueriesAfter(t, r.trace) &&
            |t| < |r.trace| <= |t| + 2 && r.trace[|t|].request == FindElement(e.selector) &&
            (!Found(r.trace[|t|].response) ==> r.value == Bool(false) && |r.trace| == |t| + 1) &&
            (|r.trace| == |t| + 1 ==> r.value == Bool(false)) &&
            (|r.trace| == |t| + 2 ==>
               r.trace[|t|].response.Returned? && r.trace[|t|].response.v.Element? &&
               r.trace[|t| + 1].request == OnElement(r.trace[|t|].response.v.id, WaitFor(kind, TimeoutOption(timeout), false)) &&
               r.value == Caught(r.trace[|t| + 1].response, Bool(false)))
  {
  }

  /**
   * A negative wait is the same request with `reverse: true`, and its neutral
   * value is `true`: an absent element or a thrown wait both give `true`.
   */
  lemma NegativeWait(e: MobileElement, o: Oracle, t: Trace, kind: WaitKind, timeout: int)
    ensures var r := WaitForNotState(e, o, t, kind, timeout);
            OnlyQueriesAfter(t, r.trace) &&
            |t| < |r.trace| <= |t| + 2 && r.trace[|t|].request == FindElement(e.selector) &&
            (!Found(r.trace[|t|].response) ==> r.value == Bool(true) && |r.trace| == |t| + 1) &&
            (|r.trace| == |t| + 1 ==> r.value == Bool(true)) &&
            (|r.trace| == |t| + 2 ==>
               r.trace[|t|].response.Returned? && r.trace[|t|].response.v.Element? &&
               r.trace[|t| + 1].request == OnElement(r.trace[|t|].response.v.id, WaitFor(kind, TimeoutOption(timeout), true)) &&
               r.value == Caught(r.trace[|t| + 1].response, Bool(true)))
  {
  }

  /**
   * On a device where the element is not found, or where the wait throws,
   * the positive and the negative wait disagree: one is `false`, the other
   * `true`. On a found element they issue the same request except for
   * `reverse`.
   */
  lemma WaitsComplementary(e: MobileElement, o: Oracle, t: Trace, kind: WaitKind, timeout: int)
    ensures var find := o(t, FindElement(e.selector));
            var pos := WaitForState(e, o, t, kind, timeout);
            var neg := WaitForNotState(e, o, t, kind, timeout);
            (!Found(find) ==> pos.value == Bool(false) && neg.value == Bool(true)) &&
            (Found(find) && find.v.Element? ==>
               var t1 := t + [Event(FindElement(e.selector), find)];
               var opt := TimeoutOption(timeout);
               (o(t1, OnElement(find.v.id, WaitFor(kind, opt, false))).Threw? ==> pos.value == Bool(false)) &&
               (o(t1, OnElement(find.v.id, WaitFor(kind, opt, true))).Threw? ==> neg.value == Bool(true)))
  {
  }

  /** The three state queries of the handle. */
  datatype Probe = EnabledProbe | DisplayedProbe | ExistingProbe

  /** The wait the first, timed, gate uses: `waitForExist` for `isExisting`, `waitForDisplayed` otherwise. */
  function GateKind(p: Probe): WaitKind {
    if p.ExistingProbe? then Exist else Displayed
  }

  function ProbeCommand(p: Probe): ElementCommand {
    match p
    case EnabledProbe => IsEnabled
    case DisplayedProbe => IsDisplayed
    case ExistingProbe => IsExisting
  }

  /** `return await element.isX()`; a throw reaches the outer `catch` and gives `false`. */
  function Query(o: Oracle, t: Trace, element: Value, p: Probe): Done<Value> {
    var q := CallOn(o, t, element, ProbeCommand(p));
    Done(Caught(q.value, Bool(false)), q.trace)
  }

  /** The untimed gate `if (await element.waitForDisplayed())`; falling through returns undefined. */
  function DefaultGate(o: Oracle, t: Trace, element: Value, p: Probe): Done<Value> {
    var w := CallOn(o, t, element, WaitFor(Displayed, None, false));
    if w.value.Threw? then Done(Bool(false), w.trace)
    else if Truthy(w.value.v) then Query(o, w.trace, element, p)
    else Done(Undefined, w.trace)
  }

  /** The timed gate `if (timeout && await element.waitForX({ timeout }))`, then the untimed one. */
  function TimedGate(o: Oracle, t: Trace, element: Value, p: Probe, timeout: int): Done<Value> {
    var w := CallOn(o, t, element, WaitFor(GateKind(p), Some(timeout), false));
    if w.value.Threw? then Done(Bool(false), w.trace)
    else if Truthy(w.value.v) then Query(o, w.trace, element, p)
    else DefaultGate(o, w.trace, element, p)
  }

  /** What a state query does once it holds an element: the timed gate only for a truthy timeout. */
  function Gate(o: Oracle, t: Trace, element: Value, p: Probe, timeout: int): Done<Value> {
    if timeout != 0 then TimedGate(o, t, element, p, timeout) else DefaultGate(o, t, element, p)
  }

  /** `isEnabled`, `isDisplayed`, `isExisting`. */
  function IsState(e: MobileElement, o: Oracle, t: Trace, p: Probe, timeout: int): Done<Value> {
    var el := GetElement(e, o, t);
    if el.value.Null? then Done(Bool(false), el.trace) else Gate(o, el.trace, el.value, p, timeout)
  }

  /** The last request of `t'` after `t` is the state query of `p`. */
  predicate ProbedLast(t: Trace, t': Trace, p: Probe) {
    |t'| > |t| && t'[|t'| - 1].request.OnElement? && t'[|t'| - 1].request.command == ProbeCommand(p)
  }

  /** The first wait a state query asks for, which depends on the timeout. */
  function FirstWait(p: Probe, timeout: int): ElementCommand {
    if timeout != 0 then WaitFor(GateKind(p), Some(timeout), false) else WaitFor(Displayed, None, false)
  }

  /**
   * The requests and result of a gate started at `t`: the wait `first`,
   * possibly more waits, and last a wait or the query; the query is asked
   * only right after a wait that returned a truthy value, and its answer is
   * the result; otherwise the result is `false`, or `undefined` right after
   * an untimed `waitForDisplayed()` that returned a falsy value.
   */
  predicate GateTrace(t: Trace, g: Done<Value>, first: ElementCommand, p: Probe) {
    Extends(t, g.trace) && |g.trace| <= |t| + 3 &&
    (|g.trace| > |t| ==> g.trace[|t|].request.OnElement? && g.trace[|t|].request.command == first) &&
    (forall i :: |t| <= i < |g.trace| - 1 ==> IsWait(g.trace[i].request)) &&
    (|g.trace| > |t| ==> IsWait(g.trace[|g.trace| - 1].request) || ProbedLast(t, g.trace, p)) &&
    (ProbedLast(t, g.trace, p) ==>
       |g.trace| >= |t| + 2 && IsWait(g.trace[|g.trace| - 2].request) &&
       ReturnedTruthy(g.trace[|g.trace| - 2].response) &&
       g.value == Caught(g.trace[|g.trace| - 1].response, Bool(false))) &&
    (!ProbedLast(t, g.trace, p) ==> g.value == Bool(false) || g.value == Undefined) &&
    (g.value.Undefined? && !ProbedLast(t, g.trace, p) ==>
       |g.trace| > |t| &&
       g.trace[|g.trace| - 1].request.OnElement? &&
       g.trace[|g.trace| - 1].request.command == WaitFor(Displayed, None, false) &&
       g.trace[|g.trace| - 1].response.Returned? && !Truthy(g.trace[|g.trace| - 1].response.v))
  }

  /** The state query adds at most one request; without it the result is `false`. */
  lemma QueryShape(o: Oracle, t: Trace, element: Value, p: Probe)
    ensures var q := Query(o, t, element, p);
            Extends(t, q.trace) && |q.trace| <= |t| + 1 &&
            (|q.trace| == |t| + 1 <==> ProbedLast(t, q.trace, p)) &&
            (|q.trace| == |t| + 1 ==> q.value == Caught(q.trace[|t|].response, Bool(false))) &&
            (|q.trace| == |t| ==> q.value == Bool(false))
  {
  }

  /**
   * The untimed gate: one `waitForDisplayed()` on a live element, then the
   * query only if it returned a truthy value; `undefined` when it returned a
   * falsy one.
   */
  lemma DefaultGateShape(o: Oracle, t: Trace, element: Value, p: Probe)
    ensures var d := DefaultGate(o, t, element, p);
            GateTrace(t, d, WaitFor(Displayed, None, false), p) && |d.trace| <= |t| + 2
  {
    var w := CallOn(o, t, element, WaitFor(Displayed, None, false));
    var d := DefaultGate(o, t, element, p);
    if w.value.Returned? && Truthy(w.value.v) {
      QueryShape(o, w.trace, element, p);
      assert d == Query(o, w.trace, element, p);
      assert d.trace[..|w.trace|] == w.trace;
    } else {
      assert d.trace == w.trace;
    }
  }

  /** The timed gate: its own wait first, and when that returned a falsy value, the untimed gate after it. */
  lemma TimedGateShape(o: Oracle, t: Trace, element: Value, p: Probe, timeout: int)
    ensures GateTrace(t, TimedGate(o, t, element, p, timeout), WaitFor(GateKind(p), Some(timeout), false), p)
  {
    var w := CallOn(o, t, element, WaitFor(GateKind(p), Some(timeout), false));
    var g := TimedGate(o, t, element, p, timeout);
    if w.value.Returned? {
      if Truthy(w.value.v) {
        QueryShape(o, w.trace, element, p);
        assert g == Query(o, w.trace, element, p);
      } else {
        DefaultGateShape(o, w.trace, element, p);
        assert g == DefaultGate(o, w.trace, element, p);
        ExtendsTransitive(t, w.trace, g.trace);
        assert forall i :: |t| <= i < |w.trace| ==> g.trace[i] == w.trace[i];
      }
      assert g.trace[..|w.trace|] == w.trace;
    } else {
      assert g.trace == w.trace;
    }
  }

  lemma GateShape(o: Oracle, t: Trace, element: Value, p: Probe, timeout: int)
    ensures GateTrace(t, Gate(o, t, element, p, timeout), FirstWait(p, timeout), p)
  {
    if timeout != 0 {
      TimedGateShape(o, t, element, p, timeout);
    } else {
      DefaultGateShape(o, t, element, p);
    }
  }

  /** A gate asks queries only: waits, and possibly the state query. */
  lemma GateRequests(o: Oracle, t: Trace, element: Value, p: Probe, timeout: int)
    ensures var g := Gate(o, t, element, p, timeout);
            OnlyQueriesAfter(t, g.trace) && |g.trace| <= |t| + 3
  {
    var g := Gate(o, t, element, p, timeout);
    GateShape(o, t, element, p, timeout);
    forall i | |t| <= i < |g.trace|
      ensures IsQuery(g.trace[i].request)
    {
      if i == |g.trace| - 1 && !IsWait(g.trace[i].request) {
        assert ProbedLast(t, g.trace, p);
      }
    }
  }

  /** A state query issues nothing but queries, starting with the lookup. */
  lemma StateQueryRequests(e: MobileElement, o: Oracle, t: Trace, p: Probe, timeout: int)
    ensures var r := IsState(e, o, t, p, timeout);
            OnlyQueriesAfter(t, r.trace) &&
            |t| < |r.trace| <= |t| + 4 && r.trace[|t|].request == FindElement(e.selector)
  {
    var el := GetElement(e, o, t);
    var r := IsState(e, o, t, p, timeout);
    assert OnlyQueriesAfter(t, el.trace);
    if !el.value.Null? {
      GateRequests(o, el.trace, el.value, p, timeout);
      OnlyQueriesTransitive(t, el.trace, r.trace);
      assert r.trace[|t|] == el.trace[|t|];
    }
  }

  /**
   * The requests of a state query: the lookup, then waits, then possibly the
   * query itself. The timed gate carries `{timeout}` and is `waitForExist`
   * for `isExisting`; without a timeout the first wait is the untimed
   * `waitForDisplayed()`.
   */
  lemma StateQueryShape(e: MobileElement, o: Oracle, t: Trace, p: Probe, timeout: int)
    ensures var r := IsState(e, o, t, p, timeout);
            Extends(t, r.trace) &&
            |t| < |r.trace| <= |t| + 4 && r.trace[|t|].request == FindElement(e.selector) &&
            (forall i :: |t| < i < |r.trace| - 1 ==> IsWait(r.trace[i].request)) &&
            (|r.trace| > |t| + 1 ==> IsWait(r.trace[|r.trace| - 1].request) || ProbedLast(t, r.trace, p)) &&
            (|r.trace| > |t| + 1 ==>
               r.trace[|t| + 1].request.OnElement? && r.trace[|t| + 1].request.command == FirstWait(p, timeout))
  {
    var el := GetElement(e, o, t);
    var r := IsState(e, o, t, p, timeout);
    if !el.value.Null? {
      GateShape(o, el.trace, el.value, p, timeout);
      assert r == Gate(o, el.trace, el.value, p, timeout);
      ExtendsTransitive(t, el.trace, r.trace);
      assert r.trace[|t|] == el.trace[|t|];
    }
  }

  /**
   * The result of a state query: `false` for an absent element; the property
   * is asked only right after a wait that returned a truthy value, and then
   * the result is its answer; otherwise the result is `false` or, when the
   * untimed wait returned a falsy value, `undefined`.
   */
  lemma StateQueryGuard(e: MobileElement, o: Oracle, t: Trace, p: Probe, timeout: int)
    ensures var r := IsState(e, o, t, p, timeout);
            |t| < |r.trace| &&
            (!Found(r.trace[|t|].response) ==> r.value == Bool(false) && |r.trace| == |t| + 1) &&
            (ProbedLast(t, r.trace, p) ==>
               |r.trace| >= |t| + 3 && IsWait(r.trace[|r.trace| - 2].request) &&
               ReturnedTruthy(r.trace[|r.trace| - 2].response) &&
               r.value == Caught(r.trace[|r.trace| - 1].response, Bool(false))) &&
            (!ProbedLast(t, r.trace, p) ==> r.value == Bool(false) || r.value == Undefined) &&
            (r.value.Undefined? && !ProbedLast(t, r.trace, p) ==>
               r.trace[|r.trace| - 1].request.OnElement? &&
               r.trace[|r.trace| - 1].request.command == WaitFor(Displayed, None, false) &&
               r.trace[|r.trace| - 1].response.Returned? && !Truthy(r.trace[|r.trace| - 1].response.v))
  {
    var el := GetElement(e, o, t);
    var r := IsState(e, o, t, p, timeout);
    if el.value.Null? {
      assert r == Done(Bool(false), el.trace);
    } else {
      assert r == Gate(o, el.trace, el.value, p, timeout);
      GateAfterLookup(o, t, el.trace, el.value, p, timeout);
    }
  }

  /** A gate started right after the element lookup, seen from before the lookup. */
  lemma GateAfterLookup(o: Oracle, t: Trace, d: Trace, element: Value, p: Probe, timeout: int)
    requires |d| == |t| + 1 && Extends(t, d) && d[|t|].request.FindElement?
    ensures var r := Gate(o, d, element, p, timeout);
            |t| < |r.trace| && r.trace[|t|] == d[|t|] &&
            (ProbedLast(t, r.trace, p) ==>
               |r.trace| >= |t| + 3 && IsWait(r.trace[|r.trace| - 2].request) &&
               ReturnedTruthy(r.trace[|r.trace| - 2].response) &&
               r.value == Caught(r.trace[|r.trace| - 1].response, Bool(false))) &&
            (!ProbedLast(t, r.trace, p) ==> r.value == Bool(false) || r.value == Undefined) &&
            (r.value.Undefined? && !ProbedLast(t, r.trace, p) ==>
               r.trace[|r.trace| - 1].request.OnElement? &&
               r.trace[|r.trace| - 1].request.command == WaitFor(Displayed, None, false) &&
               r.trace[|r.trace| - 1].response.Returned? && !Truthy(r.trace[|r.trace| - 1].response.v))
  {
    var r := Gate(o, d, element, p, timeout);
    GateShape(o, d, element, p, timeout);
    assert r.trace[|t|] == d[|t|];
    assert ProbedLast(t, r.trace, p) <==> ProbedLast(d, r.trace, p);
  }

  /** The last request of `t'` after `t` is an untimed `waitForDisplayed()` that returned a falsy value. */
  predicate FellThrough(t: Trace, t': Trace) {
    |t'| > |t| && t'[|t'| - 1].request.OnElement? &&
    t'[|t'| - 1].request.command == WaitFor(Displayed, None, false) &&
    t'[|t'| - 1].response.Returned? && !Truthy(t'[|t'| - 1].response.v)
  }

  /**
   * What the wait at index `i` of a gate's trace forces: a throw ends the
   * gate with `false`; a truthy answer is followed by the state query on the
   * same element, and nothing after it; a falsy timed wait is followed by the
   * untimed `waitForDisplayed()`; a falsy untimed wait ends the gate with
   * `undefined`.
   */
  predicate WaitDecides(g: Done<Value>, i: nat, p: Probe)
    requires i < |g.trace| && IsWait(g.trace[i].request)
  {
    var w := g.trace[i];
    (w.response.Threw? ==> i == |g.trace| - 1 && g.value == Bool(false)) &&
    (ReturnedTruthy(w.response) ==>
       i == |g.trace| - 2 && g.trace[i + 1].request == OnElement(w.request.id, ProbeCommand(p))) &&
    (w.response.Returned? && !Truthy(w.response.v) && w.request.command.timeout.Some? ==>
       i + 1 < |g.trace| && g.trace[i + 1].request == OnElement(w.request.id, WaitFor(Displayed, None, false))) &&
    (w.response.Returned? && !Truthy(w.response.v) && w.request.command.timeout.None? ==>
       i == |g.trace| - 1 && g.value == Undefined)
  }

  /**
   * The gate's outcome as the waits decide it: no request at all (the value
   * is not a live element) gives `false`; every wait forces its successor as
   * `WaitDecides` says; and, unless the query was asked, the result is
   * `undefined` exactly when the gate fell through its untimed wait.
   */
  predicate WaitsDecide(t: Trace, g: Done<Value>, p: Probe) {
    (|g.trace| == |t| ==> g.value == Bool(false)) &&
    (forall i :: |t| <= i < |g.trace| && IsWait(g.trace[i].request) ==> WaitDecides(g, i, p)) &&
    (!ProbedLast(t, g.trace, p) ==> (g.value.Undefined? <==> FellThrough(t, g.trace)))
  }

  /** The untimed gate reacts to its wait as the source's `if` does. */
  lemma DefaultGateDecides(o: Oracle, t: Trace, element: Value, p: Probe)
    ensures WaitsDecide(t, DefaultGate(o, t, element, p), p)
  {
    var w := CallOn(o, t, element, WaitFor(Displayed, None, false));
    var d := DefaultGate(o, t, element, p);
    if element.Element? && ReturnedTruthy(w.value) {
      assert d.trace == w.trace + [Event(OnElement(element.id, ProbeCommand(p)), o(w.trace, OnElement(element.id, ProbeCommand(p))))];
      assert !IsWait(d.trace[|t| + 1].request);
    }
  }

  /** The timed gate reacts to its wait, and hands a falsy answer on to the untimed gate. */
  lemma TimedGateDecides(o: Oracle, t: Trace, element: Value, p: Probe, timeout: int)
    requires timeout != 0
    ensures WaitsDecide(t, TimedGate(o, t, element, p, timeout), p)
  {
    var w := CallOn(o, t, element, WaitFor(GateKind(p), Some(timeout), false));
    var g := TimedGate(o, t, element, p, timeout);
    if element.Element? && w.value.Returned? {
      if Truthy(w.value.v) {
        assert g.trace == w.trace + [Event(OnElement(element.id, ProbeCommand(p)), o(w.trace, OnElement(element.id, ProbeCommand(p))))];
        assert !IsWait(g.trace[|t| + 1].request);
      } else {
        var u := OnElement(element.id, WaitFor(Displayed, None, false));
        assert g == DefaultGate(o, w.trace, element, p);
        DefaultGateDecides(o, w.trace, element, p);
        assert g.trace[..|w.trace| + 1] == w.trace + [Event(u, o(w.trace, u))];
        DecidesShift(t, w.trace, g, p);
      }
    }
  }

  lemma GateDecides(o: Oracle, t: Trace, element: Value, p: Probe, timeout: int)
    ensures WaitsDecide(t, Gate(o, t, element, p, timeout), p)
  {
    if timeout != 0 {
      TimedGateDecides(o, t, element, p, timeout);
    } else {
      DefaultGateDecides(o, t, element, p);
    }
  }

  /**
   * `isEnabled`, `isDisplayed` and `isExisting` react to every wait as the
   * source does: a thrown wait returns `false` at once, a truthy wait is
   * followed by the query, a falsy timed wait by the untimed
   * `waitForDisplayed()`, and a falsy untimed wait falls through to
   * `undefined`; apart from the query's own answer, `undefined` arises in
   * no other way.
   */
  lemma StateQueryDecides(e: MobileElement, o: Oracle, t: Trace, p: Probe, timeout: int)
    ensures WaitsDecide(t, IsState(e, o, t, p, timeout), p)
  {
    var el := GetElement(e, o, t);
    var r := IsState(e, o, t, p, timeout);
    if el.value.Null? {
      assert r == Done(Bool(false), el.trace);
      assert !IsWait(r.trace[|t|].request);
    } else {
      assert r == Gate(o, el.trace, el.value, p, timeout);
      GateDecides(o, el.trace, el.value, p, timeout);
      GateShape(o, el.trace, el.value, p, timeout);
      assert r.trace[|t|] == el.trace[|t|];
      assert !IsWait(r.trace[|t|].request);
      assert ProbedLast(t, r.trace, p) <==> ProbedLast(el.trace, r.trace, p);
      assert FellThrough(t, r.trace) <==> FellThrough(el.trace, r.trace);
    }
  }

  /**
   * Moving the start of a gate one request earlier: when the earlier request
   * is a wait it must decide its successor itself, and otherwise nothing
   * changes.
   */
  lemma DecidesShift(t: Trace, d: Trace, g: Done<Value>, p: Probe)
    requires |d| == |t| + 1 && Extends(t, d) && Extends(d, g.trace) && |g.trace| > |d|
    requires IsWait(d[|t|].request) ==> WaitDecides(g, |t|, p)
    requires WaitsDecide(d, g, p)
    ensures WaitsDecide(t, g, p)
  {
    assert g.trace[|t|] == d[|t|];
    assert ProbedLast(t, g.trace, p) <==> ProbedLast(d, g.trace, p);
    assert FellThrough(t, g.trace) <==> FellThrough(d, g.trace);
  }

  /** `isDisplayedInViewport`: gated on `isExisting(timeout)`, then the element is looked up again. */
  function IsDisplayedInViewportOf(e: MobileElement, o: Oracle, t: Trace, timeout: int): Done<Value> {
    var ex := IsState(e, o, t, ExistingProbe, timeout);
    if !Truthy(ex.value) then Done(Bool(false), ex.trace)
    else
      var el := GetElement(e, o, ex.trace);
      var q := CallOn(o, el.trace, el.value, IsDisplayedInViewport);
      Done(Caught(q.value, Bool(false)), q.trace)
  }

  /**
   * `isDisplayedInViewport` is `false` unless `isExisting(timeout)` held, and
   * a truthy result is the answer of the viewport query itself. Only queries
   * are issued.
   */
  lemma ViewportGuard(e: MobileElement, o: Oracle, t: Trace, timeout: int)
    ensures var ex := IsState(e, o, t, ExistingProbe, timeout);
            var r := IsDisplayedInViewportOf(e, o, t, timeout);
            OnlyQueriesAfter(t, r.trace) && Extends(ex.trace, r.trace) &&
            (!Truthy(ex.value) ==> r == Done(Bool(false), ex.trace)) &&
            (Truthy(r.value) ==>
               Truthy(ex.value) && |r.trace| == |ex.trace| + 2 &&
               r.trace[|r.trace| - 1].request.OnElement? &&
               r.trace[|r.trace| - 1].request.command == IsDisplayedInViewport &&
               r.trace[|r.trace| - 1].response == Returned(r.value))
  {
    StateQueryRequests(e, o, t, ExistingProbe, timeout);
    var ex := IsState(e, o, t, ExistingProbe, timeout);
    var r := IsDisplayedInViewportOf(e, o, t, timeout);
    assert forall i :: |t| <= i < |ex.trace| ==> r.trace[i] == ex.trace[i];
  }

  /**
   * The gated commands: the gate query, then (when it is truthy) a fresh
   * lookup and the command on what it found. `None` when the command was
   * not reached; otherwise the command's answer.
   */
  function Guarded(e: MobileElement, o: Oracle, t: Trace, gate: Probe, command: ElementCommand, timeout: int): Done<Option<Response>> {
    var g := IsState(e, o, t, gate, timeout);
    if !Truthy(g.value) then Done(None, g.trace)
    else
      var el := GetElement(e, o, g.trace);
      var c := CallOn(o, el.trace, el.value, command);
      Done(if el.value.Element? then Some(c.value) else None, c.trace)
  }

  /**
   * The command is issued exactly when the gate query was truthy and the
   * fresh lookup found a live element, and then it is the last request.
   * When the gate is not truthy nothing but queries is issued.
   */
  lemma GuardedIssue(e: MobileElement, o: Oracle, t: Trace, gate: Probe, command: ElementCommand, timeout: int)
    ensures var g := IsState(e, o, t, gate, timeout);
            var r := Guarded(e, o, t, gate, command, timeout);
            Extends(g.trace, r.trace) &&
            (!Truthy(g.value) ==> r.trace == g.trace && OnlyQueriesAfter(t, r.trace)) &&
            (r.value.Some? <==> Truthy(g.value) && |r.trace| == |g.trace| + 2) &&
            (r.value.Some? ==>
               r.trace[|g.trace|].request == FindElement(e.selector) &&
               r.trace[|g.trace|].response.Returned? && r.trace[|g.trace|].response.v.Element? &&
               r.trace[|g.trace| + 1].request == OnElement(r.trace[|g.trace|].response.v.id, command) &&
               r.value.value == r.trace[|g.trace| + 1].response)
  {
    StateQueryRequests(e, o, t, gate, timeout);
  }

  /** The three actions, each with the state that gates it. */
  datatype Action = ClickAction | SetValueAction(text: Value) | ClearAction

  function ActionGate(a: Action): Probe {
    if a.ClickAction? then EnabledProbe else DisplayedProbe
  }

  function ActionCommand(a: Action): ElementCommand {
    match a
    case ClickAction => Click
    case SetValueAction(text) => SetValue(text)
    case ClearAction => ClearValue
  }

  /**
   * `click`, `setValue`, `clear`: the gated command, then `browser.pause(pause)`
   * when the command returned and `pause` is truthy. Every path returns
   * undefined.
   */
  function Act(e: MobileElement, o: Oracle, t: Trace, a: Action, timeout: int, pause: int): Done<Value> {
    var c := Guarded(e, o, t, ActionGate(a), ActionCommand(a), timeout);
    if c.value.Some? && c.value.value.Returned? && pause != 0 then
      Done(Undefined, Call(o, c.trace, Pause(pause)).trace)
    else Done(Undefined, c.trace)
  }

  /** `click`. */
  function ClickOn(e: MobileElement, o: Oracle, t: Trace, timeout: int, pause: int): Done<Value> {
    Act(e, o, t, ClickAction, timeout, pause)
  }

  /** `setValue`: there is no guard on `text` here. */
  function SetValueOn(e: MobileElement, o: Oracle, t: Trace, text: Value, timeout: int, pause: int): Done<Value> {
    Act(e, o, t, SetValueAction(text), timeout, pause)
  }

  /** `clear`. */
  function ClearOn(e: MobileElement, o: Oracle, t: Trace, timeout: int, pause: int): Done<Value> {
    Act(e, o, t, ClearAction, timeout, pause)
  }

  /**
   * An action returns undefined on every path. It is issued only when its
   * gate (`isEnabled` for click, `isDisplayed` otherwise) was truthy; the
   * pause follows it only when it returned and `pause` is truthy.
   */
  lemma ActionGuarded(e: MobileElement, o: Oracle, t: Trace, a: Action, timeout: int, pause: int)
    ensures var g := IsState(e, o, t, ActionGate(a), timeout);
            var c := Guarded(e, o, t, ActionGate(a), ActionCommand(a), timeout);
            var r := Act(e, o, t, a, timeout, pause);
            r.value.Undefined? && Extends(c.trace, r.trace) &&
            (!Truthy(g.value) ==> OnlyQueriesAfter(t, r.trace)) &&
            (|r.trace| > |c.trace| <==> c.value.Some? && c.value.value.Returned? && pause != 0) &&
            (|r.trace| > |c.trace| ==> |r.trace| == |c.trace| + 1 && r.trace[|c.trace|].request == Pause(pause))
  {
    GuardedIssue(e, o, t, ActionGate(a), ActionCommand(a), timeout);
  }

  /** `click` is not issued unless `isEnabled(timeout)` was truthy. */
  lemma ClickOnlyIfEnabled(e: MobileElement, o: Oracle, t: Trace, timeout: int, pause: int)
    requires !Truthy(IsState(e, o, t, EnabledProbe, timeout).value)
    ensures OnlyQueriesAfter(t, ClickOn(e, o, t, timeout, pause).trace)
  {
    ActionGuarded(e, o, t, ClickAction, timeout, pause);
  }

  /** Before its command, a gated command asks only queries; the command, when reached, is the last request. */
  lemma GuardedRequests(e: MobileElement, o: Oracle, t: Trace, gate: Probe, command: ElementCommand, timeout: int)
    ensures var c := Guarded(e, o, t, gate, command, timeout);
            Extends(t, c.trace) &&
            (c.value.None? ==> OnlyQueriesAfter(t, c.trace)) &&
            (c.value.Some? ==>
               |c.trace| > |t| && OnlyQueriesAfter(t, c.trace[..|c.trace| - 1]) &&
               c.trace[|c.trace| - 1].request.OnElement? && c.trace[|c.trace| - 1].request.command == command)
  {
    var g := IsState(e, o, t, gate, timeout);
    var c := Guarded(e, o, t, gate, command, timeout);
    StateQueryRequests(e, o, t, gate, timeout);
    if Truthy(g.value) {
      var el := GetElement(e, o, g.trace);
      assert OnlyQueriesAfter(g.trace, el.trace);
      OnlyQueriesTransitive(t, g.trace, el.trace);
      if el.value.Element? {
        assert c.trace[..|c.trace| - 1] == el.trace;
        ExtendsTransitive(t, el.trace, c.trace);
      } else {
        assert c.trace == el.trace;
      }
    }
  }

  /**
   * Apart from queries, an action asks the driver for its command at most
   * once, and for the pause only right after that command.
   */
  lemma ActRequests(e: MobileElement, o: Oracle, t: Trace, a: Action, timeout: int, pause: int)
    ensures AtMostOnce(t, Act(e, o, t, a, timeout, pause).trace, ActionCommand(a), pause)
  {
    var c := Guarded(e, o, t, ActionGate(a), ActionCommand(a), timeout);
    var r := Act(e, o, t, a, timeout, pause);
    GuardedRequests(e, o, t, ActionGate(a), ActionCommand(a), timeout);
    if c.value.Some? {
      CommandThenPause(t, c.trace, r.trace, ActionCommand(a), pause);
    } else {
      QueriesAtMostOnce(t, r.trace, ActionCommand(a), pause);
    }
  }

  /** The four getters, each with the state that gates it. */
  datatype Getter = TextGetter | AttributeGetter(name: Value) | LocationGetter | SizeGetter

  function GetterGate(g: Getter): Probe {
    if g.TextGetter? || g.AttributeGetter? then DisplayedProbe else ExistingProbe
  }

  function GetterCommand(g: Getter): ElementCommand {
    match g
    case TextGetter => GetText
    case AttributeGetter(name) => GetAttribute(name)
    case LocationGetter => GetLocation
    case SizeGetter => GetSize
  }

  /**
   * `getText`, `getAttribute`, `getLocation`, `getSize`: the driver's answer
   * is awaited and dropped, and the result is null on every path.
   */
  function Get(e: MobileElement, o: Oracle, t: Trace, g: Getter, timeout: int): (r: Done<Value>)
    ensures r.value.Null?
    ensures r.trace == Guarded(e, o, t, GetterGate(g), GetterCommand(g), timeout).trace
  {
    var c := Guarded(e, o, t, GetterGate(g), GetterCommand(g), timeout);
    Done(Null, c.trace)
  }

  /** `scrollIntoView`, gated on `isExisting(timeout)`; it returns undefined. */
  function ScrollIntoViewOf(e: MobileElement, o: Oracle, t: Trace, timeout: int): (r: Done<Value>)
    ensures r.value.Undefined?
    ensures r.trace == Guarded(e, o, t, ExistingProbe, ScrollIntoView, timeout).trace
  {
    var c := Guarded(e, o, t, ExistingProbe, ScrollIntoView, timeout);
    Done(Undefined, c.trace)
  }

  /** The surface `scrollUntilDisplayed` swipes over: the screen iff `container` is null or undefined. */
  function ScrollSurface(container: Value): (s: Swipe.Surface)
    ensures s.Screen? <==> Utilities.IsUndefined(container)
    ensures s.Within? ==> s.container == container
  {
    if Utilities.IsUndefined(container) then Swipe.Screen else Swipe.Within(container)
  }

  /**
   * The `scrollUntilDisplayed` loop from `scrolls` on: check the viewport with
   * the default timeout, stop when visible or after `maxScroll` swipes, else
   * swipe once (repeat 1, one second, 100 ms) and count it. A thrown swipe
   * ends the loop, and the error is swallowed.
   */
  function ScrollRun(e: MobileElement, o: Oracle, t: Trace, waitforTimeout: int, container: Value,
                     direction: string, maxScroll: int, scrolls: int): Trace
    decreases maxScroll - scrolls
  {
    var v := IsDisplayedInViewportOf(e, o, t, waitforTimeout);
    if Truthy(v.value) || scrolls >= maxScroll then v.trace
    else
      var s := Swipe.SwipeRun(o, v.trace, ScrollSurface(container), direction, 1,
                              Constant.TIMEOUT_ONE_SECOND, Constant.PAUSE_ONE_MILISECOND);
      if s.value.Err? then s.trace
      else ScrollRun(e, o, s.trace, waitforTimeout, container, direction, maxScroll, scrolls + 1)
  }

  /** The viewport check issues no gesture. */
  lemma ViewportNoGesture(e: MobileElement, o: Oracle, t: Trace, timeout: int)
    ensures var v := IsDisplayedInViewportOf(e, o, t, timeout);
            Extends(t, v.trace) && Gestures(v.trace) == Gestures(t)
  {
    ViewportGuard(e, o, t, timeout);
    var v := IsDisplayedInViewportOf(e, o, t, timeout);
    QueriesNoGesture(t, v.trace);
  }

  /** Queries are never gestures. */
  lemma {:induction false} QueriesNoGesture(t: Trace, t': Trace)
    requires OnlyQueriesAfter(t, t')
    ensures Gestures(t') == Gestures(t)
    decreases |t'|
  {
    if |t'| > |t| {
      var last := t'[|t'| - 1];
      assert t'[..|t'| - 1][..|t|] == t;
      QueriesNoGesture(t, t'[..|t'| - 1]);
      assert t' == t'[..|t'| - 1] + [last];
      GesturesSnoc(t'[..|t'| - 1], last);
    } else {
      assert t' == t;
    }
  }

  /** The number of swipes the loop may still make. */
  function Remaining(maxScroll: int, scrolls: int): nat {
    if maxScroll <= scrolls then 0 else maxScroll - scrolls
  }

  /** At most `maxScroll` swipes are performed, each a single gesture. */
  lemma {:induction false} ScrollBounded(e: MobileElement, o: Oracle, t: Trace, waitforTimeout: int, container: Value,
                                         direction: string, maxScroll: int, scrolls: int)
    ensures var r := ScrollRun(e, o, t, waitforTimeout, container, direction, maxScroll, scrolls);
            Extends(t, r) && Gestures(r) <= Gestures(t) + Remaining(maxScroll, scrolls)
    decreases maxScroll - scrolls
  {
    var v := IsDisplayedInViewportOf(e, o, t, waitforTimeout);
    ViewportNoGesture(e, o, t, waitforTimeout);
    if !(Truthy(v.value) || scrolls >= maxScroll) {
      var surface := ScrollSurface(container);
      var s := Swipe.SwipeRun(o, v.trace, surface, direction, 1, Constant.TIMEOUT_ONE_SECOND, Constant.PAUSE_ONE_MILISECOND);
      Swipe.SwipeRunGestures(o, v.trace, surface, direction, 1, Constant.TIMEOUT_ONE_SECOND, Constant.PAUSE_ONE_MILISECOND);
      ExtendsTransitive(t, v.trace, s.trace);
      if s.value.Ok? {
        ScrollBounded(e, o, s.trace, waitforTimeout, container, direction, maxScroll, scrolls + 1);
        ExtendsTransitive(t, s.trace, ScrollRun(e, o, t, waitforTimeout, container, direction, maxScroll, scrolls));
      }
    }
  }

  /** The viewport never reports the element on this device, at any point. */
  ghost predicate NeverVisible(e: MobileElement, o: Oracle, waitforTimeout: int) {
    forall t: Trace ::
      !Truthy(IsDisplayedInViewportOf(e, o, t, waitforTimeout).value)
  }

  /** A single swipe of the scroll loop never throws on this device. */
  ghost predicate SwipesSucceed(o: Oracle, surface: Swipe.Surface, direction: string) {
    forall t: Trace ::
      Swipe.SwipeRun(o, t, surface, direction, 1, Constant.TIMEOUT_ONE_SECOND, Constant.PAUSE_ONE_MILISECOND).value.Ok?
  }

  /** An element that never becomes visible, with swipes that never throw, gets exactly `maxScroll` swipes. */
  lemma {:induction false} ScrollExhausts(e: MobileElement, o: Oracle, t: Trace, waitforTimeout: int, container: Value,
                                          direction: string, maxScroll: int, scrolls: int)
    requires NeverVisible(e, o, waitforTimeout)
    requires SwipesSucceed(o, ScrollSurface(container), direction)
    ensures Gestures(ScrollRun(e, o, t, waitforTimeout, container, direction, maxScroll, scrolls))
            == Gestures(t) + Remaining(maxScroll, scrolls)
    decreases maxScroll - scrolls
  {
    var v := IsDisplayedInViewportOf(e, o, t, waitforTimeout);
    ViewportNoGesture(e, o, t, waitforTimeout);
    if scrolls < maxScroll {
      var surface := ScrollSurface(container);
      var s := Swipe.SwipeRun(o, v.trace, surface, direction, 1, Constant.TIMEOUT_ONE_SECOND, Constant.PAUSE_ONE_MILISECOND);
      Swipe.SwipeRunGestures(o, v.trace, surface, direction, 1, Constant.TIMEOUT_ONE_SECOND, Constant.PAUSE_ONE_MILISECOND);
      ScrollExhausts(e, o, s.trace, waitforTimeout, container, direction, maxScroll, scrolls + 1);
    }
  }

  /** When the element is already in the viewport, the loop stops after that one check, with no swipe. */
  lemma ScrollStopsWhenVisible(e: MobileElement, o: Oracle, t: Trace, waitforTimeout: int, container: Value,
                               direction: string, maxScroll: int, scrolls: int)
    requires Truthy(IsDisplayedInViewportOf(e, o, t, waitforTimeout).value)
    ensures ScrollRun(e, o, t, waitforTimeout, container, direction, maxScroll, scrolls)
            == IsDisplayedInViewportOf(e, o, t, waitforTimeout).trace
    ensures OnlyQueriesAfter(t, ScrollRun(e, o, t, waitforTimeout, container, direction, maxScroll, scrolls))
  {
    ViewportGuard(e, o, t, waitforTimeout);
  }

  /**
   * `scrollUntilDisplayed`: the `scrolls` counter and the two loops, one per
   * surface. It completes normally on every path.
   */
  method ScrollUntilDisplayed(e: MobileElement, o: Oracle, t: Trace, waitforTimeout: int, container: Value,
                              direction: string, maxScroll: int)
    returns (r: Trace)
    ensures r == ScrollRun(e, o, t, waitforTimeout, container, direction, maxScroll, 0)
  {
    var trace := t;
    var scrolls := 0;
    if Utilities.IsUndefined(container) {
      while true
        invariant ScrollRun(e, o, t, waitforTimeout, container, direction, maxScroll, 0)
                  == ScrollRun(e, o, trace, waitforTimeout, container, direction, maxScroll, scrolls)
        decreases maxScroll - scrolls
      {
        var visible := IsDisplayedInViewportOf(e, o, trace, waitforTimeout);
        trace := visible.trace;
        if Truthy(visible.value) || !(scrolls < maxScroll) {
          break;
        }
        var s := Swipe.Swipe(o, trace, direction, 1, Constant.TIMEOUT_ONE_SECOND, Constant.PAUSE_ONE_MILISECOND);
        trace := s.trace;
        if s.value.Err? {
          break;
        }
        scrolls := scrolls + 1;
      }
    } else {
      while true
        invariant ScrollRun(e, o, t, waitforTimeout, container, direction, maxScroll, 0)
                  == ScrollRun(e, o, trace, waitforTimeout, container, direction, maxScroll, scrolls)
        decreases maxScroll - scrolls
      {
        var visible := IsDisplayedInViewportOf(e, o, trace, waitforTimeout);
        trace := visible.trace;
        if Truthy(visible.value) || !(scrolls < maxScroll) {
          break;
        }
        var s := Swipe.SwipeWithinElement(o, trace, container, direction, 1, Constant.TIMEOUT_ONE_SECOND, Constant.PAUSE_ONE_MILISECOND);
        trace := s.trace;
        if s.value.Err? {
          break;
        }
        scrolls := scrolls + 1;
      }
    }
    return trace;
  }
}
