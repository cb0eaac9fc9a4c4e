/**
 * pages/BasePage.js and pages/LoginPage.js: the page objects.
 *
 * A page resolves an element name through its `LocatorReader` into a
 * `MobileElement` (or null, or undefined when the lookup threw) and then
 * calls that element's operations. The logging of every step is left out.
 * Each operation is a method on the page object and is proved equal to a
 * function of the reader's locator set, the device and the trace; the
 * properties are lemmas about those functions.
 */
module Pages {
  import opened Js
  import opened Driver
  import opened Utilities
  import Mobile
  import Locators
  import Strings
  import Globals

  /** What `getMobileElement` hands back. */
  datatype Handle = UndefinedHandle | NullHandle | ElementHandle(element: Mobile.MobileElement)

  const LOGIN_PAGE := "loginPage"
  const LOGO := "logo"
  const USERNAME := "username"
  const PASSWORD := "password"
  const LOGIN_BUTTON := "loginButton"

  /** The elements `isOpened` waits for, in the order of its `&&` chain. */
  const OPENED_ELEMENTS := [LOGO, USERNAME, PASSWORD, LOGIN_BUTTON]

  /** `getMobileElement` on what `getLocator` did: thrown, null, or a selector. */
  function ToHandle(r: Result<Option<string>, Locators.LocatorError>): Handle {
    match r
    case Err(_) => UndefinedHandle
    case Ok(None) => NullHandle
    case Ok(Some(selector)) => ElementHandle(Mobile.MobileElement(selector))
  }

  /** `getMobileElement(name, _, reader)` on a reader holding `locators`: the set afterwards and the handle. */
  function HandleFor(locators: Locators.LocatorSet, name: string, page: string, platform: string): (Locators.LocatorSet, Handle) {
    var (after, r) := Locators.Resolve(locators, name, page, platform);
    (after, ToHandle(r))
  }

  /**
   * `getMobileElement` never lets an error out: a name the set does not hold
   * gives undefined, an entry whose value is nullish or `""` gives null, and
   * otherwise the handle is an element exactly when `getLocator` returned a
   * selector, and its selector is that string.
   */
  lemma HandleCases(locators: Locators.LocatorSet, name: string, page: string, platform: string)
    ensures var (after, h) := HandleFor(locators, name, page, platform);
            var r := Locators.Resolve(locators, name, page, platform).1;
            ((name !in locators || locators[name].NullEntry?) ==> after == locators && h == UndefinedHandle) &&
            ((name in locators && locators[name].Locator? &&
              (IsUndefined(locators[name].value) || IsEmpty(locators[name].value))) ==>
               after == locators && h == NullHandle) &&
            (h.ElementHandle? <==> r.Ok? && r.value.Some?) &&
            (h.ElementHandle? ==> r.value.value == h.element.selector) &&
            (h.UndefinedHandle? <==> r.Err?)
  {
    Locators.ResolveCases(locators, name, page, platform);
  }

  /**
   * For a stored string value without a template, the element's selector
   * is built from the locator type: xpath as is, accessibility id behind
   * `~`, the iOS strategies behind their prefixes. Any other type makes
   * `getLocator` throw, which `getMobileElement` turns into undefined.
   */
  lemma HandleByType(locators: Locators.LocatorSet, name: string, page: string, platform: string)
    requires name in locators && locators[name].Locator?
    requires locators[name].value.Str? && locators[name].value.s != ""
    requires !Includes(locators[name].value.s, Locators.TEMPLATE)
    ensures var (after, h) := HandleFor(locators, name, page, platform);
            var l := locators[name];
            var v := l.value.s;
            after == locators &&
            (l.locatorType == Str("xpath") ==> h == ElementHandle(Mobile.MobileElement(v))) &&
            (l.locatorType == Str("accessibility_id") ==> h == ElementHandle(Mobile.MobileElement("~" + v))) &&
            (l.locatorType == Str("class_chain") ==> h == ElementHandle(Mobile.MobileElement("-ios class chain:" + v))) &&
            (l.locatorType == Str("predicate_string") ==>
               h == ElementHandle(Mobile.MobileElement("-ios predicate string:" + v))) &&
            (l.locatorType !in {Str("xpath"), Str("accessibility_id"), Str("class_chain"), Str("predicate_string")} ==>
               h == UndefinedHandle)
  {
    Locators.SelectorByType(locators[name], Undefined);
    assert locators[name := locators[name]] == locators;
  }

  /** One operand of `isOpened`: `this.#getX().waitForDisplayed(timeout)`; `None` when the accessor gave no element (a TypeError). */
  function DisplayedCheck(locators: Locators.LocatorSet, name: string, page: string, platform: string,
                          o: Oracle, t: Trace, timeout: int): (Locators.LocatorSet, Option<Done<Value>>)
  {
    var (after, h) := HandleFor(locators, name, page, platform);
    (after, if h.ElementHandle? then Some(Mobile.WaitForState(h.element, o, t, Displayed, timeout)) else None)
  }

  /**
   * `isOpened`: the `&&` chain over `names`, which stops at the first falsy
   * operand and yields it; a TypeError on any operand is caught and gives
   * `false`.
   */
  function Opened(locators: Locators.LocatorSet, names: seq<string>, page: string, platform: string,
                  o: Oracle, t: Trace, timeout: int): (Locators.LocatorSet, Done<Value>)
    requires |names| > 0
    decreases |names|
  {
    var (after, c) := DisplayedCheck(locators, names[0], page, platform, o, t, timeout);
    if c.None? then (after, Done(Bool(false), t))
    else if |names| == 1 || !Truthy(c.value.value) then (after, c.value)
    else Opened(after, names[1..], page, platform, o, c.value.trace, timeout)
  }

  /** `isOpened` only looks: it finds elements and waits, two requests per element at most. */
  lemma {:induction false} OpenedQueries(locators: Locators.LocatorSet, names: seq<string>, page: string, platform: string,
                                         o: Oracle, t: Trace, timeout: int)
    requires |names| > 0
    ensures var r := Opened(locators, names, page, platform, o, t, timeout).1;
            OnlyQueriesAfter(t, r.trace) && |r.trace| <= |t| + 2 * |names|
    decreases |names|
  {
    var (after, h) := HandleFor(locators, names[0], page, platform);
    if h.ElementHandle? {
      var d := Mobile.WaitForState(h.element, o, t, Displayed, timeout);
      Mobile.PositiveWait(h.element, o, t, Displayed, timeout);
      if |names| > 1 && Truthy(d.value) {
        OpenedQueries(after, names[1..], page, platform, o, d.trace, timeout);
        OnlyQueriesTransitive(t, d.trace, Opened(after, names[1..], page, platform, o, d.trace, timeout).1.trace);
      }
    }
  }

  /** A `waitForDisplayed(timeout)` request that answered something truthy. */
  predicate WaitedDisplayed(e: Event, timeout: int) {
    e.request.OnElement? && e.request.command == WaitFor(Displayed, TimeoutOption(timeout), false) &&
    e.response.Returned? && Truthy(e.response.v)
  }

  /** The second request of the `k`-th element's round, counting from `start`. */
  function RoundWait(tr: Trace, start: int, k: int): Event
    requires 0 <= start + 2 * k + 1 < |tr|
  {
    tr[start + 2 * k + 1]
  }

  /**
   * `isOpened` is truthy exactly when every element was found and its
   * `waitForDisplayed(timeout)` answered truthy: then each element took a
   * lookup and a wait, in the order of `names`.
   */
  lemma {:induction false} OpenedTruthy(locators: Locators.LocatorSet, names: seq<string>, page: string, platform: string,
                                        o: Oracle, t: Trace, timeout: int)
    requires |names| > 0
    ensures var r := Opened(locators, names, page, platform, o, t, timeout).1;
            Truthy(r.value) <==>
              |r.trace| == |t| + 2 * |names| &&
              forall k :: 0 <= k < |names| ==> WaitedDisplayed(RoundWait(r.trace, |t|, k), timeout)
    decreases |names|
  {
    var (after, h) := HandleFor(locators, names[0], page, platform);
    var r := Opened(locators, names, page, platform, o, t, timeout).1;
    if h.ElementHandle? {
      var d := Mobile.WaitForState(h.element, o, t, Displayed, timeout);
      Mobile.PositiveWait(h.element, o, t, Displayed, timeout);
      if |names| > 1 && Truthy(d.value) {
        assert r == Opened(after, names[1..], page, platform, o, d.trace, timeout).1;
        OpenedTruthy(after, names[1..], page, platform, o, d.trace, timeout);
        OpenedQueries(after, names[1..], page, platform, o, d.trace, timeout);
        RoundsShift(t, d.trace, r.trace, |names|, timeout);
      } else {
        assert r == d;
        if |d.trace| == |t| + 2 {
          assert RoundWait(d.trace, |t|, 0) == d.trace[|t| + 1];
        }
      }
    } else {
      assert r == Done(Bool(false), t);
    }
  }

  /**
   * The `&&` chain stopped at the `k`-th element: every earlier element took a
   * lookup and a truthy `waitForDisplayed(timeout)`, and nothing follows the
   * `k`-th element's own requests. Ending right after its wait, the result is
   * that wait's answer (`false` when it threw); ending earlier (no element
   * handle, so no request at all, or a lookup that found nothing), it is
   * `false`.
   */
  predicate StoppedAt(t: Trace, r: Done<Value>, k: nat, timeout: int) {
    |t| + 2 * k <= |r.trace| <= |t| + 2 * k + 2 &&
    (forall j :: 0 <= j < k ==> WaitedDisplayed(RoundWait(r.trace, |t|, j), timeout)) &&
    (|r.trace| < |t| + 2 * k + 2 ==> r.value == Bool(false)) &&
    (|r.trace| == |t| + 2 * k + 2 ==>
       r.trace[|r.trace| - 1].request.OnElement? &&
       r.trace[|r.trace| - 1].request.command == WaitFor(Displayed, TimeoutOption(timeout), false) &&
       r.value == Caught(r.trace[|r.trace| - 1].response, Bool(false)))
  }

  /**
   * A falsy `isOpened` stopped at some element: the chain evaluates the
   * elements in order and yields the first falsy operand, or `false` for an
   * element the accessor could not produce.
   */
  lemma {:induction false} OpenedStops(locators: Locators.LocatorSet, names: seq<string>, page: string, platform: string,
                                       o: Oracle, t: Trace, timeout: int)
    requires |names| > 0
    ensures var r := Opened(locators, names, page, platform, o, t, timeout).1;
            !Truthy(r.value) ==> exists k :: 0 <= k < |names| && StoppedAt(t, r, k, timeout)
    decreases |names|
  {
    var (after, h) := HandleFor(locators, names[0], page, platform);
    var r := Opened(locators, names, page, platform, o, t, timeout).1;
    if h.ElementHandle? {
      var d := Mobile.WaitForState(h.element, o, t, Displayed, timeout);
      Mobile.PositiveWait(h.element, o, t, Displayed, timeout);
      if |names| > 1 && Truthy(d.value) {
        var r' := Opened(after, names[1..], page, platform, o, d.trace, timeout).1;
        assert r == r';
        OpenedStops(after, names[1..], page, platform, o, d.trace, timeout);
        OpenedQueries(after, names[1..], page, platform, o, d.trace, timeout);
        if !Truthy(r.value) {
          var k :| 0 <= k < |names| - 1 && StoppedAt(d.trace, r', k, timeout);
          StoppedShift(t, d.trace, r, k, timeout);
        }
      } else {
        assert r == d;
        if !Truthy(r.value) {
          assert StoppedAt(t, r, 0, timeout);
        }
      }
    } else {
      assert r == Done(Bool(false), t);
      assert StoppedAt(t, r, 0, timeout);
    }
  }

  /** A stop `k` rounds after a first round that ended at `d` is a stop `k + 1` rounds after `t`. */
  lemma StoppedShift(t: Trace, d: Trace, r: Done<Value>, k: nat, timeout: int)
    requires |d| == |t| + 2 && Extends(d, r.trace)
    requires WaitedDisplayed(d[|t| + 1], timeout)
    requires StoppedAt(d, r, k, timeout)
    ensures StoppedAt(t, r, k + 1, timeout)
  {
    assert RoundWait(r.trace, |t|, 0) == d[|t| + 1];
    forall j | 1 <= j < k + 1
      ensures WaitedDisplayed(RoundWait(r.trace, |t|, j), timeout)
    {
      assert RoundWait(r.trace, |t|, j) == RoundWait(r.trace, |d|, j - 1);
    }
  }

  /** Rounds counted from `t` are the first round, ending at `d`, followed by the rounds counted from `d`. */
  lemma RoundsShift(t: Trace, d: Trace, r: Trace, n: nat, timeout: int)
    requires n > 1 && |d| == |t| + 2 && Extends(d, r)
    requires d[|t| + 1].response.Returned? && d[|t| + 1].request.OnElement? &&
             d[|t| + 1].request.command == WaitFor(Displayed, TimeoutOption(timeout), false)
    requires Truthy(d[|t| + 1].response.v)
    ensures (|r| == |d| + 2 * (n - 1) && forall k :: 0 <= k < n - 1 ==> WaitedDisplayed(RoundWait(r, |d|, k), timeout))
            <==>
            (|r| == |t| + 2 * n && forall k :: 0 <= k < n ==> WaitedDisplayed(RoundWait(r, |t|, k), timeout))
  {
    if |r| == |t| + 2 * n {
      assert RoundWait(r, |t|, 0) == d[|t| + 1];
      assert forall k :: 1 <= k < n ==> RoundWait(r, |t|, k) == RoundWait(r, |d|, k - 1);
      assert forall k :: 0 <= k < n - 1 ==> RoundWait(r, |d|, k) == RoundWait(r, |t|, k + 1);
    }
  }

  /**
   * `enterUsername` / `enterPassword`: nothing for a nullish or empty
   * text; otherwise the element's `setValue(text, timeout, pause)`, with a
   * TypeError on a missing element caught.
   */
  function EnterText(locators: Locators.LocatorSet, name: string, text: Value, page: string, platform: string,
                     o: Oracle, t: Trace, timeout: int, pause: int): (Locators.LocatorSet, Trace)
  {
    if IsUndefined(text) || IsEmpty(text) then (locators, t)
    else
      var (after, h) := HandleFor(locators, name, page, platform);
      if h.ElementHandle? then (after, Mobile.SetValueOn(h.element, o, t, text, timeout, pause).trace)
      else (after, t)
  }

  /** A nullish or empty text returns before the element is even looked up. */
  lemma EnterSkipsEmpty(locators: Locators.LocatorSet, name: string, text: Value, page: string, platform: string,
                        o: Oracle, t: Trace, timeout: int, pause: int)
    requires IsUndefined(text) || IsEmpty(text)
    ensures EnterText(locators, name, text, page, platform, o, t, timeout, pause) == (locators, t)
  {
  }

  /**
   * Entering text asks the device for `setValue(text)` at most once and
   * nothing else but queries and the pause right after it.
   */
  lemma EnterSetsValueOnce(locators: Locators.LocatorSet, name: string, text: Value, page: string, platform: string,
                           o: Oracle, t: Trace, timeout: int, pause: int)
    ensures AtMostOnce(t, EnterText(locators, name, text, page, platform, o, t, timeout, pause).1, SetValue(text), pause)
  {
    var (after, h) := HandleFor(locators, name, page, platform);
    if !(IsUndefined(text) || IsEmpty(text)) && h.ElementHandle? {
      Mobile.ActRequests(h.element, o, t, Mobile.SetValueAction(text), timeout, pause);
    } else {
      assert t[..|t|] == t;
    }
  }

  /** `clickLoginButton`: the login button's `click(timeout, pause)`, a TypeError caught. */
  function ClickButton(locators: Locators.LocatorSet, page: string, platform: string,
                       o: Oracle, t: Trace, timeout: int, pause: int): (Locators.LocatorSet, Trace)
  {
    var (after, h) := HandleFor(locators, LOGIN_BUTTON, page, platform);
    if h.ElementHandle? then (after, Mobile.ClickOn(h.element, o, t, timeout, pause).trace)
    else (after, t)
  }

  /** Clicking asks for `click` at most once, and otherwise only queries and the pause after it. */
  lemma ClickAtMostOnce(locators: Locators.LocatorSet, page: string, platform: string,
                        o: Oracle, t: Trace, timeout: int, pause: int)
    ensures AtMostOnce(t, ClickButton(locators, page, platform, o, t, timeout, pause).1, Click, pause)
  {
    var (after, h) := HandleFor(locators, LOGIN_BUTTON, page, platform);
    if h.ElementHandle? {
      Mobile.ActRequests(h.element, o, t, Mobile.ClickAction, timeout, pause);
    } else {
      assert t[..|t|] == t;
    }
  }

  /** `login`: the three steps in order, each continuing from what the previous one left. */
  function LoginRun(locators: Locators.LocatorSet, username: Value, password: Value, page: string, platform: string,
                    o: Oracle, t: Trace, timeout: int, pause: int): (Locators.LocatorSet, Trace)
  {
    var (l1, t1) := EnterText(locators, USERNAME, username, page, platform, o, t, timeout, pause);
    var (l2, t2) := EnterText(l1, PASSWORD, password, page, platform, o, t1, timeout, pause);
    ClickButton(l2, page, platform, o, t2, timeout, pause)
  }

  /**
   * The trace of `login` falls into three consecutive parts: the username's
   * `setValue` (at most once), then the password's, then the `click`.
   */
  lemma LoginOrder(locators: Locators.LocatorSet, username: Value, password: Value, page: string, platform: string,
                   o: Oracle, t: Trace, timeout: int, pause: int)
    ensures var r := LoginRun(locators, username, password, page, platform, o, t, timeout, pause).1;
            exists t1: Trace, t2: Trace ::
              AtMostOnce(t, t1, SetValue(username), pause) &&
              AtMostOnce(t1, t2, SetValue(password), pause) &&
              AtMostOnce(t2, r, Click, pause)
  {
    var (l1, t1) := EnterText(locators, USERNAME, username, page, platform, o, t, timeout, pause);
    var (l2, t2) := EnterText(l1, PASSWORD, password, page, platform, o, t1, timeout, pause);
    EnterSetsValueOnce(locators, USERNAME, username, page, platform, o, t, timeout, pause);
    EnterSetsValueOnce(l1, PASSWORD, password, page, platform, o, t1, timeout, pause);
    ClickAtMostOnce(l2, page, platform, o, t2, timeout, pause);
  }

  /** A skipped username does not stop `login`: the password and the click still follow. */
  lemma LoginContinuesAfterSkippedUsername(locators: Locators.LocatorSet, username: Value, password: Value,
                                           page: string, platform: string, o: Oracle, t: Trace, timeout: int, pause: int)
    requires IsUndefined(username) || IsEmpty(username)
    ensures var (l2, t2) := EnterText(locators, PASSWORD, password, page, platform, o, t, timeout, pause);
            LoginRun(locators, username, password, page, platform, o, t, timeout, pause) ==
              ClickButton(l2, page, platform, o, t2, timeout, pause)
  {
  }

  /** A `BasePage` object: the settings it captured and its strings reader. */
  class BasePage {
    const locale: string
    const platform: string
    const localeStrings: Strings.StringReader

    /** `new BasePage()` reads the locale and platform once, and starts an empty strings reader. */
    constructor (g: Globals.GlobalVariables)
      ensures locale == g.locale && platform == g.platform
      ensures fresh(localeStrings) && localeStrings.strings == map[]
    {
      locale := g.locale;
      platform := g.platform;
      localeStrings := new Strings.StringReader();
    }

    method GetLocaleStrings() returns (r: Strings.StringReader)
      ensures r == localeStrings
    {
      return localeStrings;
    }

    method GetPlatform() returns (r: string)
      ensures r == platform
    {
      return platform;
    }

    method GetLocale() returns (r: string)
      ensures r == locale
    {
      return locale;
    }

    /** `getMobileElement(locatorName, methodName, locatorReader)`: a thrown lookup is caught and the method returns undefined. */
    method GetMobileElement(locatorName: string, locatorReader: Locators.LocatorReader) returns (h: Handle)
      modifies locatorReader
      ensures (locatorReader.locators, h) ==
              HandleFor(old(locatorReader.locators), locatorName, locatorReader.page, locatorReader.platform)
    {
      var selector := locatorReader.GetLocator(locatorName);
      if selector.Err? {
        return UndefinedHandle;
      }
      if selector.value.None? {
        return NullHandle;
      }
      return ElementHandle(Mobile.MobileElement(selector.value.value));
    }
  }

  /** The page keeps the locale and platform it saw when it was built, whatever the settings become afterwards. */
  method SettingsCapturedOnce(g: Globals.GlobalVariables, newLocale: string, newPlatform: string)
    returns (locale: string, platform: string)
    modifies g
    ensures locale == old(g.locale) && platform == old(g.platform)
    ensures g.locale == newLocale && g.platform == newPlatform
  {
    var page := new BasePage(g);
    g.SetLocale(newLocale);
    g.SetPlatform(newPlatform);
    locale := page.GetLocale();
    platform := page.GetPlatform();
  }

  /** A `LoginPage` object: the base page and the locator reader of `"loginPage"`. */
  class LoginPage {
    const base: BasePage
    const locatorReader: Locators.LocatorReader

    constructor (base: BasePage, locatorReader: Locators.LocatorReader)
      ensures this.base == base && this.locatorReader == locatorReader
    {
      this.base := base;
      this.locatorReader := locatorReader;
    }

    /** `isOpened(timeout)`: the four operands of the `&&` chain, written out as the source writes them. */
    method IsOpened(o: Oracle, t: Trace, timeout: int) returns (r: Done<Value>)
      modifies locatorReader
      ensures (locatorReader.locators, r) ==
              Opened(old(locatorReader.locators), OPENED_ELEMENTS, locatorReader.page, locatorReader.platform, o, t, timeout)
    {
      var page, platform := locatorReader.page, locatorReader.platform;
      ghost var names := OPENED_ELEMENTS;
      ghost var l0 := locatorReader.locators;
      assert names[1..] == [USERNAME, PASSWORD, LOGIN_BUTTON];
      assert names[1..][1..] == [PASSWORD, LOGIN_BUTTON];
      assert names[1..][1..][1..] == [LOGIN_BUTTON];

      var h := base.GetMobileElement(LOGO, locatorReader);
      if !h.ElementHandle? {
        return Done(Bool(false), t);
      }
      r := Mobile.WaitForState(h.element, o, t, Displayed, timeout);
      if !Truthy(r.value) {
        return;
      }
      ghost var l1 := locatorReader.locators;
      assert Opened(l0, names, page, platform, o, t, timeout) == Opened(l1, names[1..], page, platform, o, r.trace, timeout);

      var trace := r.trace;
      h := base.GetMobileElement(USERNAME, locatorReader);
      if !h.ElementHandle? {
        return Done(Bool(false), trace);
      }
      r := Mobile.WaitForState(h.element, o, trace, Displayed, timeout);
      if !Truthy(r.value) {
        return;
      }
      ghost var l2 := locatorReader.locators;
      assert Opened(l1, names[1..], page, platform, o, trace, timeout) ==
             Opened(l2, names[1..][1..], page, platform, o, r.trace, timeout);

      trace := r.trace;
      h := base.GetMobileElement(PASSWORD, locatorReader);
      if !h.ElementHandle? {
        return Done(Bool(false), trace);
      }
      r := Mobile.WaitForState(h.element, o, trace, Displayed, timeout);
      if !Truthy(r.value) {
        return;
      }
      ghost var l3 := locatorReader.locators;
      assert Opened(l2, names[1..][1..], page, platform, o, trace, timeout) ==
             Opened(l3, names[1..][1..][1..], page, platform, o, r.trace, timeout);

      trace := r.trace;
      h := base.GetMobileElement(LOGIN_BUTTON, locatorReader);
      if !h.ElementHandle? {
        return Done(Bool(false), trace);
      }
      r := Mobile.WaitForState(h.element, o, trace, Displayed, timeout);
    }

    /** `enterUsername(username, timeout, pause)`. */
    method EnterUsername(o: Oracle, t: Trace, username: Value, timeout: int, pause: int) returns (r: Trace)
      modifies locatorReader
      ensures (locatorReader.locators, r) ==
              EnterText(old(locatorReader.locators), USERNAME, username, locatorReader.page, locatorReader.platform,
                        o, t, timeout, pause)
    {
      r := EnterInto(USERNAME, o, t, username, timeout, pause);
    }

    /** `enterPassword(password, timeout, pause)`. */
    method EnterPassword(o: Oracle, t: Trace, password: Value, timeout: int, pause: int) returns (r: Trace)
      modifies locatorReader
      ensures (locatorReader.locators, r) ==
              EnterText(old(locatorReader.locators), PASSWORD, password, locatorReader.page, locatorReader.platform,
                        o, t, timeout, pause)
    {
      r := EnterInto(PASSWORD, o, t, password, timeout, pause);
    }

    /** The body the two text entries share: the guard, the accessor, then `setValue`. */
    method EnterInto(name: string, o: Oracle, t: Trace, text: Value, timeout: int, pause: int) returns (r: Trace)
      modifies locatorReader
      ensures (locatorReader.locators, r) ==
              EnterText(old(locatorReader.locators), name, text, locatorReader.page, locatorReader.platform,
                        o, t, timeout, pause)
    {
      if IsUndefined(text) || IsEmpty(text) {
        return t;
      }
      var h := base.GetMobileElement(name, locatorReader);
      if !h.ElementHandle? {
        return t;
      }
      r := Mobile.SetValueOn(h.element, o, t, text, timeout, pause).trace;
    }

    /** `clickLoginButton(timeout, pause)`. */
    method ClickLoginButton(o: Oracle, t: Trace, timeout: int, pause: int) returns (r: Trace)
      modifies locatorReader
      ensures (locatorReader.locators, r) ==
              ClickButton(old(locatorReader.locators), locatorReader.page, locatorReader.platform, o, t, timeout, pause)
    {
      var h := base.GetMobileElement(LOGIN_BUTTON, locatorReader);
      if !h.ElementHandle? {
        return t;
      }
      r := Mobile.ClickOn(h.element, o, t, timeout, pause).trace;
    }

    /** `login(username, password, timeout, pause)`: each step swallows its own errors, so all three run. */
    method Login(o: Oracle, t: Trace, username: Value, password: Value, timeout: int, pause: int) returns (r: Trace)
      modifies locatorReader
      ensures (locatorReader.locators, r) ==
              LoginRun(old(locatorReader.locators), username, password, locatorReader.page, locatorReader.platform,
                       o, t, timeout, pause)
    {
      r := EnterUsername(o, t, username, timeout, pause);
      r := EnterPassword(o, r, password, timeout, pause);
      r := ClickLoginButton(o, r, timeout, pause);
    }
  }

  /**
   * `new LoginPage()`: the base page captures the settings, then the locator
   * reader is built for `"loginPage"` and the captured platform; a failure
   * to find that page's locators propagates.
   */
  method NewLoginPage(g: Globals.GlobalVariables, files: seq<Locators.CatalogFile>) returns (r: Result<LoginPage, Locators.LocatorError>)
    ensures r.Ok? <==> Locators.FindLocators(files, LOGIN_PAGE, g.platform).Ok?
    ensures r.Err? ==> r.error == Locators.FindLocators(files, LOGIN_PAGE, g.platform).error
    ensures r.Ok? ==> fresh(r.value) && fresh(r.value.base) && fresh(r.value.locatorReader) &&
                      r.value.base.locale == g.locale && r.value.base.platform == g.platform &&
                      r.value.locatorReader.page == LOGIN_PAGE && r.value.locatorReader.platform == g.platform &&
                      r.value.locatorReader.locators == Locators.FindLocators(files, LOGIN_PAGE, g.platform).value
  {
    var base := new BasePage(g);
    var platform := base.GetPlatform();
    var reader := Locators.NewLocatorReader(LOGIN_PAGE, platform, files);
    if reader.Err? {
      return Err(reader.error);
    }
    var page := new LoginPage(base, reader.value);
    return Ok(page);
  }
}
