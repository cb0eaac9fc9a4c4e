/**
 * The frozen lookup tables of utils/Constant.js.
 *
 * Each table is a Dafny `const`, so no operation of the model can change it,
 * which is what `Object.freeze` guarantees in the source. Tables whose key
 * order matters to a caller (`Object.keys(LOCATOR_TYPE).find(...)`) are kept
 * as sequences of `(key, value)` pairs in declaration order.
 */
module Constant {
  import opened Js

  const CUSTOM_LOG_LEVEL: seq<(string, string)> :=
    [("INFO", "info"), ("DEBUG", "debug"), ("WARN", "warn"), ("ERROR", "error")]

  /** TIMEOUT, in milliseconds, in declaration order. */
  const TIMEOUT: seq<(string, int)> :=
    [("ONE_SECOND", 1000), ("TWO_SECONDS", 2000), ("THREE_SECONDS", 3000),
     ("FOUR_SECONDS", 4000), ("FIVE_SECONDS", 5000), ("TEN_SECONDS", 10000),
     ("FIFTEEN_SECONDS", 15000), ("TWENTY_SECONDS", 20000), ("THIRTY_SECONDS", 30000)]

  /** PAUSE, in milliseconds, in declaration order. */
  const PAUSE: seq<(string, int)> :=
    [("ONE_MILISECOND", 100), ("TWO_MILISECONDS", 200), ("THREE_MILISECONDS", 300),
     ("FOUR_MILISECONDS", 400), ("HALF_SECOND", 500), ("ONE_SECOND", 1000),
     ("TWO_SECONDS", 2000), ("THREE_SECONDS", 3000), ("FOUR_SECONDS", 4000),
     ("FIVE_SECONDS", 5000), ("TEN_SECONDS", 10000), ("FIFTEEN_SECONDS", 15000),
     ("TWENTY_SECONDS", 20000), ("THIRTY_SECONDS", 30000)]

  const ELEMENT_ATTRIBUTE: seq<(string, string)> :=
    [("ENABLED", "enabled"), ("VALUE", "value"), ("VISIBLE", "visible"), ("NAME", "name"), ("LABEL", "label")]

  /** LOCATOR_TYPE in declaration order, which is the order `Object.keys` lists it. */
  const LOCATOR_TYPE: seq<(string, string)> :=
    [("CLASS_CHAIN", "class_chain"), ("XPATH", "xpath"),
     ("ACCESSIBILITY_ID", "accessibility_id"), ("PREDICATE_STRING", "predicate_string")]

  /** DIRECTION: symbolic key to the value a swipe switches on. */
  const DIRECTION: map<string, string> :=
    map["UP" := "up", "DOWN" := "down", "LEFT" := "left", "RIGHT" := "right"]

  /**
   * The property names every object literal inherits from `Object.prototype`.
   * Reading one of them from `DIRECTION` gives a function (or, for
   * `__proto__`, an object): a truthy value that is none of the four
   * direction strings.
   */
  const OBJECT_PROTOTYPE_KEYS: set<string> :=
    {"constructor", "__proto__", "toString", "toLocaleString", "valueOf", "hasOwnProperty",
     "isPrototypeOf", "propertyIsEnumerable", "__defineGetter__", "__defineSetter__",
     "__lookupGetter__", "__lookupSetter__"}

  /** `Constant.DIRECTION[key]` as JavaScript reads it: an own value, an inherited member, or undefined. */
  function DirectionLookup(key: string): (v: Value)
    ensures Truthy(v) <==> key in DIRECTION || key in OBJECT_PROTOTYPE_KEYS
    ensures key in DIRECTION ==> v == Str(DIRECTION[key])
    ensures key !in DIRECTION ==> !v.Str?
  {
    if key in DIRECTION then Str(DIRECTION[key])
    else if key in OBJECT_PROTOTYPE_KEYS then OtherObject
    else Undefined
  }

  const TIMEOUT_ONE_SECOND := 1000
  const PAUSE_ONE_MILISECOND := 100

  /** The four swipe directions, as a closed variant. */
  datatype Direction = Up | Down | Left | Right

  /** The string value `Constant.DIRECTION.<key>` holds for each direction. */
  function DirectionValue(d: Direction): string {
    match d
    case Up => "up"
    case Down => "down"
    case Left => "left"
    case Right => "right"
  }

  /**
   * `Constant.DIRECTION[key]` followed by the `switch` over the four values:
   * the direction a key selects, or `None` when the swipe throws.
   */
  function ParseDirection(key: string): (r: Option<Direction>)
    ensures r.Some? <==> key in DIRECTION
    ensures r.Some? ==> DIRECTION[key] == DirectionValue(r.value)
  {
    if key !in DIRECTION then None
    else
      var v := DIRECTION[key];
      if v == "up" then Some(Up)
      else if v == "down" then Some(Down)
      else if v == "left" then Some(Left)
      else if v == "right" then Some(Right)
      else None
  }

  /** The direction whose value a key maps to is the one `ParseDirection` returns. */
  lemma ParseDirectionByValue(key: string, d: Direction)
    requires key in DIRECTION && DIRECTION[key] == DirectionValue(d)
    ensures ParseDirection(key) == Some(d)
  {
  }

  predicate StrictlyIncreasing(t: seq<(string, int)>) {
    forall i, j :: 0 <= i < j < |t| ==> t[i].1 < t[j].1
  }

  predicate DistinctValues(t: seq<(string, string)>) {
    forall i, j :: 0 <= i < j < |t| ==> t[i].1 != t[j].1
  }

  lemma TimeoutsIncrease()
    ensures StrictlyIncreasing(TIMEOUT)
    ensures TIMEOUT[0] == ("ONE_SECOND", TIMEOUT_ONE_SECOND)
    ensures TIMEOUT[|TIMEOUT| - 1] == ("THIRTY_SECONDS", 30000)
  {
  }

  lemma PausesIncrease()
    ensures StrictlyIncreasing(PAUSE)
    ensures PAUSE[0] == ("ONE_MILISECOND", PAUSE_ONE_MILISECOND)
  {
  }

  /** Exactly four locator types, with pairwise-distinct values. */
  lemma LocatorTypesDistinct()
    ensures |LOCATOR_TYPE| == 4 && DistinctValues(LOCATOR_TYPE)
    ensures (set i | 0 <= i < |LOCATOR_TYPE| :: LOCATOR_TYPE[i].1)
            == {"class_chain", "xpath", "accessibility_id", "predicate_string"}
  {
    var vals := set i | 0 <= i < |LOCATOR_TYPE| :: LOCATOR_TYPE[i].1;
    assert LOCATOR_TYPE[0].1 in vals && LOCATOR_TYPE[1].1 in vals;
    assert LOCATOR_TYPE[2].1 in vals && LOCATOR_TYPE[3].1 in vals;
  }

  /** The four directions have four distinct values, and each key names its own direction. */
  lemma DirectionsDistinct()
    ensures DIRECTION.Keys == {"UP", "DOWN", "LEFT", "RIGHT"}
    ensures forall d1: Direction, d2: Direction :: d1 != d2 ==> DirectionValue(d1) != DirectionValue(d2)
    ensures ParseDirection("UP") == Some(Up) && ParseDirection("DOWN") == Some(Down)
    ensures ParseDirection("LEFT") == Some(Left) && ParseDirection("RIGHT") == Some(Right)
    ensures DIRECTION.Keys !! OBJECT_PROTOTYPE_KEYS
  {
  }
}
