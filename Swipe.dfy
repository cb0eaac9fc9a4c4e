/**
 * The gesture engine of element/Swipe.js: `swipe` over the whole window and
 * `swipeWithinElement` over a container element.
 *
 * Each iteration of either loop reads the geometry afresh, validates the
 * direction key, computes an end point by the halving formulas and submits one
 * five-step touch sequence followed by `releaseActions`. Errors are not caught
 * here: a failed driver call or an unknown direction ends the loop and reaches
 * the caller as `Err`.
 */
module Swipe {
  import opened Js
  import opened Driver
  import Constant

  /**
   * The ways a swipe throws: the `CustomException` for a key whose
   * `DIRECTION` value is falsy, whose message reports the `duration` argument
   * (that is the variable the template interpolates); the one the `switch`
   * `default` throws for a truthy value that is none of the four directions
   * (a key inherited from `Object.prototype`); or a driver error.
   */
  datatype SwipeError = InvalidDirection(reported: int) | UnmatchedDirection | DriverError

  /** The error a key that selects no direction raises once the geometry has been read. */
  function DirectionError(key: string, duration: int): (e: SwipeError)
    ensures key !in Constant.DIRECTION ==>
              (e == UnmatchedDirection <==> key in Constant.OBJECT_PROTOTYPE_KEYS) &&
              (e == InvalidDirection(duration) <==> key !in Constant.OBJECT_PROTOTYPE_KEYS)
  {
    if Truthy(Constant.DirectionLookup(key)) then UnmatchedDirection else InvalidDirection(duration)
  }

  /** What is swiped over: the window, or a container element. */
  datatype Surface = Screen | Within(container: Value)

  /** The start point of one gesture and the extent its end point is measured against. */
  datatype Frame = Frame(startX: real, startY: real, width: real, height: real)

  /** The action type string the source writes for both pointer moves. */
  const MOVE_ACTION := "pointerMovie"

  /** Window frame: the gesture starts at the centre of the window. */
  function ScreenFrame(width: real, height: real): (f: Frame)
    ensures f.width == width && f.height == height
    ensures 2.0 * f.startX == width && 2.0 * f.startY == height
  {
    Frame(width / 2.0, height / 2.0, width, height)
  }

  /** Container frame as the source computes it: `((x + width) / 2, (y + height) / 2)`. */
  function ElementFrame(x: real, y: real, width: real, height: real): (f: Frame)
    ensures f.width == width && f.height == height
    ensures 2.0 * f.startX == x + width && 2.0 * f.startY == y + height
  {
    Frame((x + width) / 2.0, (y + height) / 2.0, width, height)
  }

  /** The end point the `switch` assigns: one coordinate moves, the other stays at the start. */
  function EndPoint(f: Frame, d: Constant.Direction): (real, real) {
    match d
    case Up => (f.startX, (f.startY - f.height) / 2.0)
    case Down => (f.startX, (f.startY + f.height) / 2.0)
    case Left => ((f.startX - f.width) / 2.0, f.startY)
    case Right => ((f.startX + f.width) / 2.0, f.startY)
  }

  /** The five pointer steps of one gesture. */
  function Gesture(f: Frame, d: Constant.Direction, duration: int, pause: int): seq<PointerAction> {
    var end := EndPoint(f, d);
    GestureTo(f.startX, f.startY, end.0, end.1, duration, pause)
  }

  /** The `performActions` request of one gesture: a single touch pointer named "finger1". */
  function Submission(f: Frame, d: Constant.Direction, duration: int, pause: int): Request {
    PerformActions([InputSource("pointer", "finger1", "touch", Gesture(f, d, duration, pause))])
  }

  /** A driver answer the destructuring `const { width, height } = ...` accepts. */
  predicate IsSize(r: Response) {
    r.Returned? && r.v.Size?
  }

  predicate IsLocation(r: Response) {
    r.Returned? && r.v.Location?
  }

  /** The geometry reads at the top of one iteration; `None` when one of them throws. */
  function ReadFrame(o: Oracle, t: Trace, s: Surface): Done<Option<Frame>> {
    match s
    case Screen =>
      var size := Call(o, t, GetWindowSize);
      if IsSize(size.value) then Done(Some(ScreenFrame(size.value.v.width, size.value.v.height)), size.trace)
      else Done(None, size.trace)
    case Within(el) =>
      var size := CallOn(o, t, el, GetSize);
      if !IsSize(size.value) then Done(None, size.trace)
      else
        var loc := CallOn(o, size.trace, el, GetLocation);
        if !IsLocation(loc.value) then Done(None, loc.trace)
        else Done(Some(ElementFrame(loc.value.v.x, loc.value.v.y, size.value.v.width, size.value.v.height)), loc.trace)
  }

  /**
   * The geometry reads: the window size is one `getWindowSize` call; a
   * container is asked `getSize` and then, only if that answered, `getLocation`.
   * No gesture is submitted.
   */
  lemma ReadFrameRequests(o: Oracle, t: Trace, s: Surface)
    ensures var f := ReadFrame(o, t, s);
            Extends(t, f.trace) && Gestures(f.trace) == Gestures(t) &&
            (s.Screen? ==> |f.trace| == |t| + 1 && f.trace[|t|].request == GetWindowSize) &&
            (s.Within? && f.value.Some? ==>
               |f.trace| == |t| + 2 && s.container.Element? &&
               f.trace[|t|].request == OnElement(s.container.id, GetSize) &&
               f.trace[|t| + 1].request == OnElement(s.container.id, GetLocation))
  {
    match s
    case Screen =>
      GesturesSnoc(t, Event(GetWindowSize, o(t, GetWindowSize)));
    case Within(el) =>
      var size := CallOn(o, t, el, GetSize);
      if el.Element? {
        GesturesSnoc(t, size.trace[|t|]);
        assert size.trace == t + [size.trace[|t|]];
        if IsSize(size.value) {
          var loc := CallOn(o, size.trace, el, GetLocation);
          GesturesSnoc(size.trace, loc.trace[|size.trace|]);
          assert loc.trace == size.trace + [loc.trace[|size.trace|]];
        }
      }
  }

  /** `performActions` with the gesture, then `releaseActions` if that returned. */
  function SubmitGesture(o: Oracle, t: Trace, f: Frame, d: Constant.Direction, duration: int, pause: int): Done<Result<(), SwipeError>> {
    var perform := Call(o, t, Submission(f, d, duration, pause));
    if perform.value.Threw? then Done(Err(DriverError), perform.trace)
    else
      var release := Call(o, perform.trace, ReleaseActions);
      Done(if release.value.Threw? then Err(DriverError) else Ok(()), release.trace)
  }

  /**
   * Submitting is exactly one gesture; it completes when both calls answer,
   * and the release follows the gesture.
   */
  lemma SubmitGestureRequests(o: Oracle, t: Trace, f: Frame, d: Constant.Direction, duration: int, pause: int)
    ensures var r := SubmitGesture(o, t, f, d, duration, pause);
            Extends(t, r.trace) && Gestures(r.trace) == Gestures(t) + 1 &&
            |r.trace| > |t| && r.trace[|t|].request == Submission(f, d, duration, pause) &&
            (r.value.Ok? <==> |r.trace| == |t| + 2 && r.trace[|t|].response.Returned? && r.trace[|t| + 1].response.Returned?) &&
            (|r.trace| == |t| + 2 ==> r.trace[|t| + 1].request == ReleaseActions)
  {
    var req := Submission(f, d, duration, pause);
    var perform := Call(o, t, req);
    GesturesSnoc(t, Event(req, o(t, req)));
    if perform.value.Returned? {
      GesturesSnoc(perform.trace, Event(ReleaseActions, o(perform.trace, ReleaseActions)));
    }
  }

  /** One iteration of either loop. */
  function SwipeOnce(o: Oracle, t: Trace, s: Surface, key: string, duration: int, pause: int): Done<Result<(), SwipeError>> {
    var f := ReadFrame(o, t, s);
    if f.value.None? then Done(Err(DriverError), f.trace)
    else match Constant.ParseDirection(key)
      case None => Done(Err(DirectionError(key, duration)), f.trace)
      case Some(d) => SubmitGesture(o, f.trace, f.value.value, d, duration, pause)
  }

  /**
   * One iteration submits at most one gesture, and exactly one when it
   * completes; an unknown key throws after the geometry reads and submits
   * nothing. A completed iteration submits the gesture computed from the
   * geometry it has just read and then releases the pointer.
   */
  lemma SwipeOnceRequests(o: Oracle, t: Trace, s: Surface, key: string, duration: int, pause: int)
    ensures var r := SwipeOnce(o, t, s, key, duration, pause);
            Extends(t, r.trace) && Gestures(r.trace) <= Gestures(t) + 1 &&
            (r.value.Ok? ==> Gestures(r.trace) == Gestures(t) + 1) &&
            (key !in Constant.DIRECTION ==> r.value.Err? && Gestures(r.trace) == Gestures(t))
  {
    var f := ReadFrame(o, t, s);
    ReadFrameRequests(o, t, s);
    if f.value.Some? && key in Constant.DIRECTION {
      SubmitGestureRequests(o, f.trace, f.value.value, Constant.ParseDirection(key).value, duration, pause);
      ExtendsTransitive(t, f.trace, SwipeOnce(o, t, s, key, duration, pause).trace);
    }
  }

  /**
   * The error a key without a direction raises once the geometry has been
   * read: `InvalidDirection(duration)` when its `DIRECTION` value is falsy,
   * `UnmatchedDirection` when it is an inherited member.
   */
  lemma SwipeOnceInvalidDirection(o: Oracle, t: Trace, s: Surface, key: string, duration: int, pause: int)
    requires key !in Constant.DIRECTION
    ensures var r := SwipeOnce(o, t, s, key, duration, pause);
            r.value == if ReadFrame(o, t, s).value.Some? then Err(DirectionError(key, duration)) else Err(DriverError)
  {
  }

  /** A completed iteration: geometry reads, then the gesture built from them, then the release. */
  lemma SwipeOnceCompleted(o: Oracle, t: Trace, s: Surface, key: string, duration: int, pause: int)
    requires SwipeOnce(o, t, s, key, duration, pause).value.Ok?
    ensures var f := ReadFrame(o, t, s);
            var r := SwipeOnce(o, t, s, key, duration, pause);
            f.value.Some? && key in Constant.DIRECTION &&
            |r.trace| == |f.trace| + 2 && r.trace[..|f.trace|] == f.trace &&
            r.trace[|f.trace|].request == Submission(f.value.value, Constant.ParseDirection(key).value, duration, pause) &&
            r.trace[|f.trace| + 1].request == ReleaseActions
  {
    var f := ReadFrame(o, t, s);
    SubmitGestureRequests(o, f.trace, f.value.value, Constant.ParseDirection(key).value, duration, pause);
  }

  /** `repeat` iterations of the loop, stopping at the first error. */
  function SwipeRun(o: Oracle, t: Trace, s: Surface, key: string, repeat: int, duration: int, pause: int): Done<Result<(), SwipeError>>
    decreases repeat
  {
    if repeat <= 0 then Done(Ok(()), t)
    else
      var one := SwipeOnce(o, t, s, key, duration, pause);
      if one.value.Err? then one else SwipeRun(o, one.trace, s, key, repeat - 1, duration, pause)
  }

  /** One more iteration of the loop. */
  lemma SwipeRunStep(o: Oracle, t: Trace, s: Surface, key: string, repeat: int, duration: int, pause: int)
    requires repeat >= 1
    ensures var one := SwipeOnce(o, t, s, key, duration, pause);
            SwipeRun(o, t, s, key, repeat, duration, pause)
            == if one.value.Err? then one else SwipeRun(o, one.trace, s, key, repeat - 1, duration, pause)
  {
  }

  /** The number of iterations `for (let i = 0; i < repeat; i++)` runs. */
  function Iterations(repeat: int): nat {
    if repeat < 0 then 0 else repeat
  }

  /**
   * At most `repeat` gestures are submitted, exactly `repeat` when the swipe
   * completes, and none when `repeat <= 0`.
   */
  lemma {:induction false} SwipeRunGestures(o: Oracle, t: Trace, s: Surface, key: string, repeat: int, duration: int, pause: int)
    ensures var r := SwipeRun(o, t, s, key, repeat, duration, pause);
            Extends(t, r.trace) &&
            Gestures(r.trace) <= Gestures(t) + Iterations(repeat) &&
            (r.value.Ok? ==> Gestures(r.trace) == Gestures(t) + Iterations(repeat)) &&
            (repeat <= 0 ==> r == Done(Ok(()), t))
    decreases repeat
  {
    if repeat > 0 {
      var one := SwipeOnce(o, t, s, key, duration, pause);
      SwipeOnceRequests(o, t, s, key, duration, pause);
      if one.value.Ok? {
        SwipeRunGestures(o, one.trace, s, key, repeat - 1, duration, pause);
        ExtendsTransitive(t, one.trace, SwipeRun(o, t, s, key, repeat, duration, pause).trace);
      }
    }
  }

  /**
   * A key that is not `UP`, `DOWN`, `LEFT` or `RIGHT` submits no gesture, and
   * with `repeat >= 1` the swipe throws the direction error unless the first
   * geometry read already threw.
   */
  lemma InvalidDirectionSubmitsNothing(o: Oracle, t: Trace, s: Surface, key: string, repeat: int, duration: int, pause: int)
    requires key !in Constant.DIRECTION
    ensures var r := SwipeRun(o, t, s, key, repeat, duration, pause);
            Gestures(r.trace) == Gestures(t) &&
            (repeat >= 1 ==> r.value == if ReadFrame(o, t, s).value.Some? then Err(DirectionError(key, duration)) else Err(DriverError))
  {
    if repeat >= 1 {
      SwipeOnceRequests(o, t, s, key, duration, pause);
      SwipeOnceInvalidDirection(o, t, s, key, duration, pause);
    }
  }

  /** Up and Down move only the y coordinate, Left and Right only x, by the halving formulas. */
  lemma EndPointAxis(f: Frame, d: Constant.Direction)
    ensures var e := EndPoint(f, d);
            (d.Up? || d.Down? ==> e.0 == f.startX) &&
            (d.Left? || d.Right? ==> e.1 == f.startY) &&
            (d.Up? ==> 2.0 * e.1 == f.startY - f.height) &&
            (d.Down? ==> 2.0 * e.1 == f.startY + f.height) &&
            (d.Left? ==> 2.0 * e.0 == f.startX - f.width) &&
            (d.Right? ==> 2.0 * e.0 == f.startX + f.width)
  {
  }

  /**
   * On a window of positive size, Down and Right end beyond the centre, Up and
   * Left before it; the Up end point lies a quarter of the height above the
   * top edge, and the Left one a quarter of the width left of the left edge.
   */
  lemma ScreenGestureDirection(width: real, height: real, d: Constant.Direction)
    requires width > 0.0 && height > 0.0
    ensures var f := ScreenFrame(width, height);
            var e := EndPoint(f, d);
            (d.Down? ==> e.1 > f.startY && 4.0 * e.1 == 3.0 * height) &&
            (d.Up? ==> e.1 < f.startY && 4.0 * e.1 == -height) &&
            (d.Right? ==> e.0 > f.startX && 4.0 * e.0 == 3.0 * width) &&
            (d.Left? ==> e.0 < f.startX && 4.0 * e.0 == -width)
  {
  }

  /**
   * The body of the `swipe` loop: read the window size, check the direction,
   * compute the end point, submit the gesture and release the pointer.
   */
  method ScreenIteration(o: Oracle, trace: Trace, direction: string, duration: int, pause: int)
    returns (r: Done<Result<(), SwipeError>>)
    ensures r == SwipeOnce(o, trace, Screen, direction, duration, pause)
  {
    var size := Call(o, trace, GetWindowSize);
    if !IsSize(size.value) {
      return Done(Err(DriverError), size.trace);
    }
    var width, height := size.value.v.width, size.value.v.height;
    var startX, startY := width / 2.0, height / 2.0;
    var endX, endY := startX, startY;
    var directionConst := Constant.DirectionLookup(direction);
    if !Truthy(directionConst) {
      return Done(Err(InvalidDirection(duration)), size.trace);
    }
    ghost var frame := ScreenFrame(width, height);
    ghost var d: Constant.Direction;
    if directionConst == Str("up") {
      endY := (startY - height) / 2.0;
      d := Constant.Up;
    } else if directionConst == Str("down") {
      endY := (startY + height) / 2.0;
      d := Constant.Down;
    } else if directionConst == Str("left") {
      endX := (startX - width) / 2.0;
      d := Constant.Left;
    } else if directionConst == Str("right") {
      endX := (startX + width) / 2.0;
      d := Constant.Right;
    } else {
      return Done(Err(UnmatchedDirection), size.trace);
    }
    assert (endX, endY) == EndPoint(frame, d);
    Constant.ParseDirectionByValue(direction, d);
    r := Submit(o, size.trace, startX, startY, endX, endY, duration, pause);
    assert Gesture(frame, d, duration, pause) == GestureTo(startX, startY, endX, endY, duration, pause);
  }

  /**
   * The body of the `swipeWithinElement` loop: read the container's size and
   * location, check the direction, compute the end point, submit the gesture
   * and release the pointer.
   */
  method ElementIteration(o: Oracle, trace: Trace, element: Value, direction: string, duration: int, pause: int)
    returns (r: Done<Result<(), SwipeError>>)
    ensures r == SwipeOnce(o, trace, Within(element), direction, duration, pause)
  {
    var size := CallOn(o, trace, element, GetSize);
    if !IsSize(size.value) {
      return Done(Err(DriverError), size.trace);
    }
    var location := CallOn(o, size.trace, element, GetLocation);
    if !IsLocation(location.value) {
      return Done(Err(DriverError), location.trace);
    }
    var width, height := size.value.v.width, size.value.v.height;
    var x, y := location.value.v.x, location.value.v.y;
    var startX, startY := (x + width) / 2.0, (y + height) / 2.0;
    var endX, endY := startX, startY;
    var directionConst := Constant.DirectionLookup(direction);
    if !Truthy(directionConst) {
      return Done(Err(InvalidDirection(duration)), location.trace);
    }
    ghost var frame := ElementFrame(x, y, width, height);
    ghost var d: Constant.Direction;
    if directionConst == Str("up") {
      endY := (startY - height) / 2.0;
      d := Constant.Up;
    } else if directionConst == Str("down") {
      endY := (startY + height) / 2.0;
      d := Constant.Down;
    } else if directionConst == Str("left") {
      endX := (startX - width) / 2.0;
      d := Constant.Left;
    } else if directionConst == Str("right") {
      endX := (startX + width) / 2.0;
      d := Constant.Right;
    } else {
      return Done(Err(UnmatchedDirection), location.trace);
    }
    assert (endX, endY) == EndPoint(frame, d);
    Constant.ParseDirectionByValue(direction, d);
    r := Submit(o, location.trace, startX, startY, endX, endY, duration, pause);
    assert Gesture(frame, d, duration, pause) == GestureTo(startX, startY, endX, endY, duration, pause);
  }

  /** The five steps from a start point to an end point. */
  function GestureTo(startX: real, startY: real, endX: real, endY: real, duration: int, pause: int): seq<PointerAction> {
    [ Move(MOVE_ACTION, 0, None, startX, startY),
      Down(0),
      Hold(pause),
      Move(MOVE_ACTION, duration, Some("pointer"), endX, endY),
      Up(0) ]
  }

  /** `await browser.performActions([...]); await browser.releaseActions();` */
  method Submit(o: Oracle, trace: Trace, startX: real, startY: real, endX: real, endY: real, duration: int, pause: int)
    returns (r: Done<Result<(), SwipeError>>)
    ensures forall f: Frame, d: Constant.Direction ::
              f.startX == startX && f.startY == startY && EndPoint(f, d) == (endX, endY) ==>
              r == SubmitGesture(o, trace, f, d, duration, pause)
  {
    var perform := Call(o, trace, PerformActions([InputSource("pointer", "finger1", "touch", [
      Move(MOVE_ACTION, 0, None, startX, startY),
      Down(0),
      Hold(pause),
      Move(MOVE_ACTION, duration, Some("pointer"), endX, endY),
      Up(0)])]));
    if perform.value.Threw? {
      return Done(Err(DriverError), perform.trace);
    }
    var release := Call(o, perform.trace, ReleaseActions);
    if release.value.Threw? {
      return Done(Err(DriverError), release.trace);
    }
    return Done(Ok(()), release.trace);
  }

  /**
   * `Swipe.swipe`: `repeat` gestures over the window, each from the window
   * size read in that iteration.
   */
  method Swipe(o: Oracle, t: Trace, direction: string, repeat: int, duration: int, pause: int)
    returns (r: Done<Result<(), SwipeError>>)
    ensures r == SwipeRun(o, t, Screen, direction, repeat, duration, pause)
  {
    var trace := t;
    for i := 0 to if repeat < 0 then 0 else repeat
      invariant SwipeRun(o, t, Screen, direction, repeat, duration, pause)
                == SwipeRun(o, trace, Screen, direction, repeat - i, duration, pause)
    {
      SwipeRunStep(o, trace, Screen, direction, repeat - i, duration, pause);
      var one := ScreenIteration(o, trace, direction, duration, pause);
      if one.value.Err? {
        return one;
      }
      trace := one.trace;
    }
    return Done(Ok(()), trace);
  }

  /**
   * `Swipe.swipeWithinElement`: `repeat` gestures over a container, each from
   * the size and location read from it in that iteration.
   */
  method SwipeWithinElement(o: Oracle, t: Trace, element: Value, direction: string, repeat: int, duration: int, pause: int)
    returns (r: Done<Result<(), SwipeError>>)
    ensures r == SwipeRun(o, t, Within(element), direction, repeat, duration, pause)
  {
    var trace := t;
    for i := 0 to if repeat < 0 then 0 else repeat
      invariant SwipeRun(o, t, Within(element), direction, repeat, duration, pause)
                == SwipeRun(o, trace, Within(element), direction, repeat - i, duration, pause)
    {
      SwipeRunStep(o, trace, Within(element), direction, repeat - i, duration, pause);
      var one := ElementIteration(o, trace, element, direction, duration, pause);
      if one.value.Err? {
        return one;
      }
      trace := one.trace;
    }
    return Done(Ok(()), trace);
  }
}
