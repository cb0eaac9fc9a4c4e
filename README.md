# Mobile page-object layer: a Dafny model

This project models the core of a WebdriverIO/Appium test-automation layer for a
mobile application:

- the element handle (`MobileElement`): lookups, positive and negative waits,
  state queries, gated actions and getters, and scrolling until an element is
  displayed;
- the touch swipe engine (`Swipe`): screen swipes and swipes inside a container;
- the locator reader (`LocatorReader`): it finds a page's locators in JSON
  catalogs and turns an entry into a selector;
- the string predicates (`Utilities`) and the constant tables (`Constant`);
- the per-locale page strings (`StringReader`) and the process-wide settings
  (`GlobalVariables`);
- the page objects `BasePage` and `LoginPage`.

## How the device is modelled

The device under automation is an **oracle**. Each `await` on the driver is a
`Request`:

- `$` and `$$`;
- `browser.waitUntil`;
- a method of a live element;
- `browser.pause`, `getWindowSize`, `performActions` and `releaseActions`.

The oracle answers each request with a value or a throw. Its answer may depend
on every request made earlier, so any deterministic device is one oracle.

Each operation takes the trace so far and returns its result together with the
extended trace. The properties are then facts about that trace, for example:

- which requests were issued, and in what order;
- that a command is issued at most once, and only after its gate answered truthy;
- how many gestures were submitted.

The objects whose fields the source updates in place are classes:

- `LocatorReader`, whose locator set `getLocator` rewrites;
- `StringReader`;
- `GlobalVariables`;
- `BasePage` and `LoginPage`.

Each of their methods is proved equal to a specification function over the old
state. Lemmas about those functions carry the properties.

Modules, one per file:

- `Js`: JavaScript values, truthiness, `String(v)`, `Option` and `Result`.
- `Utilities`: the string predicates.
- `Constant`: the constant tables.
- `Driver`: requests, responses, the trace and gesture counting.
- `Swipe`.
- `Mobile` (`MobileElement.dfy`).
- `Locators`.
- `Strings`.
- `Globals`.
- `Pages`.

## Model

| member | source | states |
|---|---|---|
| Utilities.IsUndefined | utils/Utilities.js:30-38 | definition of `isUndefined`: the value is null or undefined; exclusivity with `isEmpty` in `UndefinedAndEmptyExclusive` |
| Utilities.IsEmpty | utils/Utilities.js:47-55 | definition of `isEmpty`: the value is exactly the string `""` |
| Utilities.Lower | utils/Utilities.js:65-130 | `toLowerCase` as ASCII lower-casing, applied by all four predicates; idempotence in `LowerIdempotent` |
| Utilities.Includes | utils/Utilities.js:65-93 | `String.prototype.includes`, through `IndexOf`; characterised by `IncludesIffOccurs` |
| Utilities.UndefinedAndEmptyExclusive | utils/Utilities.js:30-55 | `isUndefined` (null or undefined) and `isEmpty` (exactly `""`) never both hold |
| Utilities.IndexOf | utils/Utilities.js:65-74 | `indexOf` is -1 or a position where the pattern occurs, and no earlier position holds an occurrence |
| Utilities.IncludesIffOccurs | utils/Utilities.js:65-74 | `includes` holds iff the pattern occurs at some index |
| Utilities.ReplaceFirst | utils/LocatorReader.js:84-89 | `String.replace` with a string pattern: unchanged when absent, else prefix + replacement + the rest after the first occurrence |
| Utilities.IsContain | utils/Utilities.js:65-74 | true iff the lower-cased expected string occurs in the lower-cased actual string |
| Utilities.IsNotContain | utils/Utilities.js:84-93 | exactly the negation of `isContain`: no occurrence at any index |
| Utilities.IsEqual | utils/Utilities.js:103-112 | true iff same length and equal character by character after lower-casing |
| Utilities.IsNotEqual | utils/Utilities.js:121-130 | exactly the negation of `isEqual` |
| Utilities.IsEqualReflexive | utils/Utilities.js:103-112 | every string is `isEqual` to itself |
| Utilities.IsEqualSymmetric | utils/Utilities.js:103-112 | `isEqual(a, b) == isEqual(b, a)` |
| Utilities.IsEqualImpliesIsContain | utils/Utilities.js:65-112 | case-insensitive equality implies case-insensitive containment |
| Utilities.IsContainEmpty | utils/Utilities.js:65-74 | every string contains `""` |
| Utilities.IsContainIgnoresCase | utils/Utilities.js:65-74 | lower-casing either argument first does not change `isContain` |
| Utilities.LowerIdempotent | utils/Utilities.js:65-112 | lower-casing twice equals lower-casing once |
| Constant.ParseDirection | utils/Constant.js:97-102 | a key maps to a direction iff it is a `DIRECTION` key, and the direction's value is the table's value |
| Constant.ParseDirectionByValue | utils/Constant.js:97-102 | a key whose table value is a direction's value parses to that direction |
| Constant.TimeoutsIncrease | utils/Constant.js:28-38 | `TIMEOUT` values strictly increase from `ONE_SECOND` = 1000 to `THIRTY_SECONDS` = 30000 |
| Constant.PausesIncrease | utils/Constant.js:47-62 | `PAUSE` values strictly increase, starting at `ONE_MILISECOND` = 100 |
| Constant.LocatorTypesDistinct | utils/Constant.js:84-89 | the four locator-type values are distinct and are exactly xpath, accessibility_id, class_chain, predicate_string |
| Constant.DirectionsDistinct | utils/Constant.js:97-102 | `DIRECTION` has keys UP, DOWN, LEFT, RIGHT, each parsing to its own direction, with distinct values; no own key is an inherited `Object.prototype` name |
| Constant.DirectionLookup | utils/Constant.js:97-102 | `DIRECTION[key]` is truthy iff the key is one of the four own keys or an inherited `Object.prototype` member; an own key reads its string; any other key reads no string |
| Swipe.ReadFrame | element/Swipe.js:23-25 | the geometry reads of one iteration (window size; for `swipeWithinElement`, lines 82-83, container size then location); stated by `ReadFrameRequests` |
| Swipe.EndPoint | element/Swipe.js:34-49 | the end point the `switch` assigns; stated by `EndPointAxis` and `ScreenGestureDirection` |
| Swipe.Gesture | element/Swipe.js:51-64 | the five pointer steps from the frame's start point to the direction's end point |
| Swipe.GestureTo | element/Swipe.js:51-64 | the five pointer steps between two given points, as the source writes them |
| Swipe.Submission | element/Swipe.js:51-64 | the `performActions` request of one gesture: one touch pointer named "finger1" |
| Swipe.SubmitGesture | element/Swipe.js:51-65 | `performActions` then, if it returned, `releaseActions`; stated by `SubmitGestureRequests` |
| Swipe.SwipeOnce | element/Swipe.js:22-66 | one loop iteration: reads, direction check, gesture; stated by `SwipeOnceRequests`, `SwipeOnceInvalidDirection` and `SwipeOnceCompleted` |
| Swipe.SwipeRun | element/Swipe.js:21-67 | `repeat` iterations stopping at the first error (the same loop as `swipeWithinElement`, lines 80-128); stated by `SwipeRunGestures` and `InvalidDirectionSubmitsNothing` |
| Swipe.ScreenFrame | element/Swipe.js:23-25 | the screen gesture starts at the centre of the window: start coordinates are half the width and half the height |
| Swipe.ElementFrame | element/Swipe.js:82-86 | the container gesture starts at `((x + width) / 2, (y + height) / 2)` as the source computes it |
| Swipe.ReadFrameRequests | element/Swipe.js:23-25 | geometry reads submit no gesture: one `getWindowSize` for the screen; `getSize` then `getLocation` for a container |
| Swipe.SubmitGestureRequests | element/Swipe.js:51-65 | submission is exactly one gesture with the computed actions; it completes iff both `performActions` and `releaseActions` answered, with the release second |
| Swipe.SwipeOnceRequests | element/Swipe.js:22-66 | one iteration submits at most one gesture, exactly one when it completes, and none for an unknown direction key |
| Swipe.DirectionError | element/Swipe.js:30-48 | for a key without a direction: the switch `default` error iff the key is an inherited `Object.prototype` member, else the falsy-value error reporting `duration` |
| Swipe.SwipeOnceInvalidDirection | element/Swipe.js:30-48 | a key without a direction throws its direction error after the geometry was read, or the driver error if a read threw |
| Swipe.SwipeOnceCompleted | element/Swipe.js:22-66 | a completed iteration is the geometry reads, then the gesture built from them, then the release |
| Swipe.SwipeRunGestures | element/Swipe.js:21-67 | at most `repeat` gestures; exactly `repeat` when the swipe completes; nothing when `repeat <= 0` |
| Driver.NoGestures | element/Swipe.js:51-64 | a trace counts no gesture exactly when none of its requests is a `performActions`, so a count of zero from `SwipeRunGestures` means nothing was submitted |
| Swipe.InvalidDirectionSubmitsNothing | element/Swipe.js:30-48 | a key without a direction submits no gesture, and with `repeat >= 1` the swipe throws its direction error (or the driver error) |
| Swipe.EndPointAxis | element/Swipe.js:34-49 | Up and Down move only y and Left and Right only x, by the source's halving formulas |
| Swipe.ScreenGestureDirection | element/Swipe.js:23-49 | on a window of positive size, Down and Right end beyond the centre and Up and Left before it, at the exact quarter offsets |
| Swipe.ScreenIteration | element/Swipe.js:23-65 | the loop body of `swipe` equals one iteration of the specification over the screen |
| Swipe.ElementIteration | element/Swipe.js:82-126 | the loop body of `swipeWithinElement` equals one iteration of the specification over the container |
| Swipe.Submit | element/Swipe.js:51-65 | submitting from the computed points equals the specification's submission for every frame and direction that yield those points |
| Swipe.Swipe | element/Swipe.js:21-67 | the `swipe` loop equals `repeat` iterations stopping at the first error (gesture count by `SwipeRunGestures`) |
| Swipe.SwipeWithinElement | element/Swipe.js:80-128 | the `swipeWithinElement` loop equals `repeat` iterations over the container stopping at the first error |
| Mobile.GetElement | element/MobileElement.js:32-41 | `getElement`: `$(selector)` through `Lookup` |
| Mobile.GetElements | element/MobileElement.js:50-59 | `getElements`: `$$(selector)` through `Lookup` |
| Mobile.WaitForState | element/MobileElement.js:120-215 | the four positive waits; stated by `PositiveWait` and `WaitsComplementary` |
| Mobile.WaitForNotState | element/MobileElement.js:224-319 | the four negative waits; stated by `NegativeWait` and `WaitsComplementary` |
| Mobile.IsState | element/MobileElement.js:328-400 | `isEnabled`, `isDisplayed` and `isExisting`: lookup, timed gate, untimed gate, query; stated by `StateQueryShape`, `StateQueryGuard`, `StateQueryDecides` and `StateQueryRequests` |
| Mobile.IsDisplayedInViewportOf | element/MobileElement.js:409-423 | `isDisplayedInViewport`; stated by `ViewportGuard` and `ViewportNoGesture` |
| Mobile.Guarded | element/MobileElement.js:432-605 | the gated-command pattern: state query, fresh lookup, command; stated by `GuardedIssue` and `GuardedRequests` |
| Mobile.Act | element/MobileElement.js:432-496 | the three actions: gated command, then the pause when it returned and `pause` is truthy; stated by `ActionGuarded` and `ActRequests` |
| Mobile.ClickOn | element/MobileElement.js:432-447 | `click`, gated on `isEnabled`; stated by `ClickOnlyIfEnabled` |
| Mobile.SetValueOn | element/MobileElement.js:457-472 | `setValue`, gated on `isDisplayed`, with no guard on the text |
| Mobile.ClearOn | element/MobileElement.js:481-496 | `clear`, gated on `isDisplayed` |
| Mobile.ScrollRun | element/MobileElement.js:614-632 | the `scrollUntilDisplayed` loop; stated by `ScrollBounded`, `ScrollExhausts` and `ScrollStopsWhenVisible` |
| Mobile.Lookup | element/MobileElement.js:32-59 | `$`/`$$` is one request; the result is null exactly when the driver threw or answered nullish, and otherwise the answer itself |
| Mobile.WaitUntilPresent | element/MobileElement.js:68-111 | one `waitUntil` request; `false` iff it threw, undefined when it returned; never `true` |
| Mobile.PositiveWait | element/MobileElement.js:120-215 | lookup, then at most one wait (timeout option only for a truthy timeout, not reversed); `false` for an absent element or a thrown wait, else the wait's answer; queries only |
| Mobile.NegativeWait | element/MobileElement.js:224-319 | the same with `reverse: true`; `true` for an absent element or a thrown wait |
| Mobile.WaitsComplementary | element/MobileElement.js:120-319 | not found: the positive wait gives `false` and the negative gives `true`; a thrown wait gives each its own neutral value |
| Mobile.QueryShape | element/MobileElement.js:336-345 | the state query adds one request, and a throw gives `false` |
| Mobile.DefaultGateShape | element/MobileElement.js:339-341 | the untimed gate asks `waitForDisplayed()` and then at most the query; the query comes only after a truthy answer, and `undefined` only after a falsy one (the converse is `DefaultGateDecides`) |
| Mobile.TimedGateShape | element/MobileElement.js:328-400 | the timed gate's wait comes first (`waitForExist` for `isExisting`, else `waitForDisplayed`), followed only by waits and possibly the query; the query comes only after a truthy answer (the converse is `TimedGateDecides`) |
| Mobile.GateShape | element/MobileElement.js:328-400 | the timed gate runs only for a truthy timeout; the first wait is as above, and the trace has the shape `TimedGateShape` states |
| Mobile.GateRequests | element/MobileElement.js:328-400 | a gate issues only queries, at most three requests |
| Mobile.StateQueryRequests | element/MobileElement.js:328-400 | `isEnabled`, `isDisplayed` and `isExisting` issue only queries, the lookup first |
| Mobile.StateQueryShape | element/MobileElement.js:328-400 | lookup, then waits, then possibly the query; at most four requests; the first wait depends on the probe and the timeout |
| Mobile.StateQueryGuard | element/MobileElement.js:328-400 | an absent element gives `false`; the property is asked only right after a wait that answered truthy, and its answer is the result; without the query the result is `false` or `undefined`, and `undefined` only after a falsy untimed wait (the converse is `StateQueryDecides`) |
| Mobile.DefaultGateDecides | element/MobileElement.js:339-341 | a thrown `waitForDisplayed()` ends the gate with `false`; a truthy answer is followed by the query on the same element and nothing else; a falsy answer ends it with `undefined`; a value that is not a live element gives `false` without a request |
| Mobile.TimedGateDecides | element/MobileElement.js:328-400 | the same for the timed gate, and a falsy timed wait is followed by the untimed `waitForDisplayed()` on the same element |
| Mobile.GateDecides | element/MobileElement.js:328-400 | every wait of a gate, timed or not, forces its successor as above |
| Mobile.StateQueryDecides | element/MobileElement.js:328-400 | in `isEnabled`, `isDisplayed` and `isExisting` a thrown wait returns `false` at once; a truthy wait is followed by the query; a falsy timed wait is followed by the untimed `waitForDisplayed()`; a falsy untimed wait falls through to `undefined`. Without the query, the result is `undefined` exactly when the last request is a falsy untimed wait |
| Mobile.ViewportGuard | element/MobileElement.js:409-423 | `isDisplayedInViewport` is `false` unless `isExisting(timeout)` held, and a truthy result is the viewport query's own answer; queries only |
| Mobile.GuardedIssue | element/MobileElement.js:432-585 | a gated command is issued iff the gate was truthy and a fresh lookup found an element; it is then the last request, on that element, and its answer is returned |
| Mobile.ActionGuarded | element/MobileElement.js:432-496 | `click` is gated on `isEnabled`, and `setValue`/`clear` on `isDisplayed`; the pause follows only a returned action with a truthy pause |
| Mobile.ClickOnlyIfEnabled | element/MobileElement.js:432-447 | when `isEnabled(timeout)` is not truthy, `click` issues only queries |
| Mobile.GuardedRequests | element/MobileElement.js:432-585 | before its command, a gated command issues only queries; the command, when reached, is last |
| Mobile.ActRequests | element/MobileElement.js:432-496 | an action issues its command at most once, and besides it only queries and the pause right after it |
| Mobile.Get | element/MobileElement.js:505-585 | the getters issue the gated getter command, then return null whatever it answered |
| Mobile.ScrollIntoViewOf | element/MobileElement.js:593-605 | `scrollIntoView` issues the command gated on `isExisting` and returns undefined |
| Mobile.ScrollSurface | element/MobileElement.js:618-627 | the loop swipes the screen iff the container is null or undefined, else within the container |
| Mobile.ViewportNoGesture | element/MobileElement.js:409-423 | the viewport check submits no gesture |
| Mobile.QueriesNoGesture | element/MobileElement.js:409-423 | a trace extended only by queries keeps its gesture count |
| Mobile.ScrollBounded | element/MobileElement.js:614-632 | `scrollUntilDisplayed` submits at most `maxScroll` gestures |
| Mobile.ScrollExhausts | element/MobileElement.js:614-632 | an element that never becomes visible, with swipes that never throw, gets exactly `maxScroll` gestures |
| Mobile.ScrollStopsWhenVisible | element/MobileElement.js:614-632 | an element already in the viewport stops the loop after that one check, with no swipe |
| Mobile.ScrollUntilDisplayed | element/MobileElement.js:614-632 | the counter loop equals the specification of the scroll loop started at zero swipes |
| Locators.IsJsonFile | utils/LocatorReader.js:40 | `extname(file) === ".json"` for a directory entry name |
| Locators.FindLocators | utils/LocatorReader.js:35-54 | the catalog search of `loadLocators`; stated by `FindLocatorsFirstMatch`, `FindLocatorsNotFound`, `LaterFilesIgnored` and `NonJsonFilesIgnored` |
| Locators.TypeKey | utils/LocatorReader.js:90-94 | `Object.keys(LOCATOR_TYPE).find(...)`; stated by `FindKeyFirst` and `TypeKeyValues` |
| Locators.Dispatch | utils/LocatorReader.js:96-107 | the `switch` over the lower-cased key; stated by `DispatchTotal` and `SelectorByType` |
| Locators.ConstructSelector | utils/LocatorReader.js:83-108 | `constructSelector`; stated by `SelectorByType`, `TemplateWrittenBack` and `ConstructNeverMissingOrUnsupported` |
| Locators.Resolve | utils/LocatorReader.js:64-74 | `getLocator` on a locator set; stated by `ResolveCases`, `ResolveTemplateUndefined` and `ResolveWithoutTemplateKeepsSet` |
| Locators.FindLocatorsFirstMatch | utils/LocatorReader.js:35-54 | the set comes from the first `.json` file holding page and platform, when every earlier file is passed over |
| Locators.FindLocatorsNotFound | utils/LocatorReader.js:50-52 | when no file holds the pair, the reader throws locators-not-found with page and platform |
| Locators.LaterFilesIgnored | utils/LocatorReader.js:39-48 | after a match (`break`), later files change nothing, even unreadable ones |
| Locators.NonJsonFilesIgnored | utils/LocatorReader.js:40 | a file not ending in `.json` is skipped unread |
| Locators.LoadLocators | utils/LocatorReader.js:35-54 | the loop with its `break` and the final check equal the catalog search |
| Locators.FindKeyFirst | utils/LocatorReader.js:90-94 | `find` over a table gives nothing iff no pair holds the value, else the key of the first pair that does |
| Locators.TypeKeyValues | utils/LocatorReader.js:90-94 | each of the four type values maps to its key, and any other value to none |
| Locators.LocatorKeysLowerToValues | utils/Constant.js:84-89 | each locator-type key, lower-cased, is its own value |
| Locators.DispatchTotal | utils/LocatorReader.js:96-107 | on every key the type lookup can give, the `switch` reaches a case, never `default` |
| Locators.SelectorByType | utils/LocatorReader.js:90-107 | for a value without template: xpath as is, accessibility id behind `~`, the iOS strategies behind their prefixes; any other type throws invalid-type; the entry is unchanged |
| Locators.ConstructNeverMissingOrUnsupported | utils/LocatorReader.js:84-107 | `constructSelector` never throws the missing-value error (its guard cannot hold) nor the unsupported-type error |
| Locators.TemplateWrittenBack | utils/LocatorReader.js:83-107 | a `%text%` value has its first occurrence replaced by `String(appendValue)` and stored back in the entry, nothing else changing; the selector is the dispatch of the type's key on the substituted value, or the invalid-type error |
| Locators.ResolveCases | utils/LocatorReader.js:64-74 | a missing or null entry throws locator-not-found; a nullish or `""` value gives null; in both cases the set is unchanged; other entries are never touched |
| Locators.ResolveTemplateUndefined | utils/LocatorReader.js:64-107 | through `getLocator` a template is filled with the text "undefined", the entry keeps that value, and the selector returned is built from it per type (xpath as is, `~`, the two iOS prefixes), or the invalid-type error |
| Locators.ResolveWithoutTemplateKeepsSet | utils/LocatorReader.js:64-74 | a value without a template leaves the set as it was |
| Locators.LocatorReader.constructor | utils/LocatorReader.js:22-27 | the reader holds its page, platform and the loaded set |
| Locators.LocatorReader.GetLocator | utils/LocatorReader.js:64-74 | the new set and the result equal the resolution specification on the old set |
| Locators.NewLocatorReader | utils/LocatorReader.js:22-27 | construction succeeds iff the catalog search does, with its set; otherwise the search's error propagates |
| Strings.Registered | utils/StringReader.js:27-29 | `map.set(locale, strings)` for each exported entry in order; stated by `RegisteredKeys`, `RegisteredUntouched` and `LastRegistrationWins` |
| Strings.FindPage | utils/StringReader.js:47-50 | `list.find((p) => p.page === page)`; stated by `FindPageFirst` |
| Strings.LookupPageStrings | utils/StringReader.js:42-52 | `getPageStrings` on a locale map; stated by `PageStringsCases` |
| Strings.RegisteredKeys | utils/StringReader.js:27-29 | registration adds exactly the entries' locales to the map |
| Strings.RegisteredUntouched | utils/StringReader.js:27-29 | a locale no entry names keeps its strings |
| Strings.LastRegistrationWins | utils/StringReader.js:27-29 | a locale ends with the strings of the last entry naming it |
| Strings.FindPageFirst | utils/StringReader.js:47-50 | `find` gives nothing iff no entry has the page, else the first entry that does |
| Strings.PageStringsCases | utils/StringReader.js:42-52 | an unknown locale throws the locale error; a known locale without the page throws the page error; otherwise the first matching entry's strings |
| Strings.StringReader.constructor | utils/StringReader.js:19-20 | a new reader starts with an empty locale map |
| Strings.StringReader.Register | utils/StringReader.js:27-29 | the loop leaves the map equal to the old map with each entry set in order |
| Strings.StringReader.GetPageStrings | utils/StringReader.js:42-52 | the lookup equals the page-strings specification on the current map |
| Globals.GlobalVariables.constructor | utils/GlobalVariables.js:8-10 | all three settings start as `""` |
| Globals.GlobalVariables.GetLocale | utils/GlobalVariables.js:18-20 | answers the stored locale |
| Globals.GlobalVariables.SetLocale | utils/GlobalVariables.js:28-30 | stores the locale; the other two settings are unchanged |
| Globals.GlobalVariables.GetPlatform | utils/GlobalVariables.js:38-40 | answers the stored platform |
| Globals.GlobalVariables.SetPlatform | utils/GlobalVariables.js:48-50 | stores the platform; the other two settings are unchanged |
| Globals.GlobalVariables.GetCustomLogLevel | utils/GlobalVariables.js:58-60 | answers the stored log level |
| Globals.GlobalVariables.SetCustomLogLevel | utils/GlobalVariables.js:68-70 | stores the log level; the other two settings are unchanged |
| Globals.Latest | utils/GlobalVariables.js:18-70 | the value a setting has after a sequence of setter calls: the last call that sets it, else the initial value; stated by `LatestSetWins` and `UnsetKeeps` |
| Globals.LatestSetWins | utils/GlobalVariables.js:18-70 | after any sequence of setter calls, a setting holds the value of the last call that set it, whatever calls to the other setters came after |
| Globals.UnsetKeeps | utils/GlobalVariables.js:18-70 | a setting that no call sets keeps its value |
| Globals.ApplyUpdates | utils/GlobalVariables.js:18-70 | running any sequence of setter calls on the object leaves each of the three fields at its `Latest` value |
| Pages.ToHandle | pages/BasePage.js:60-69 | `getMobileElement` on what `getLocator` did: a thrown error gives undefined, null gives null, a selector gives an element |
| Pages.HandleFor | pages/BasePage.js:60-69 | `getMobileElement` on a reader's set: the set afterwards and the handle; stated by `HandleCases` and `HandleByType` |
| Pages.DisplayedCheck | pages/LoginPage.js:67-75 | one operand of `isOpened`: the element's `waitForDisplayed(timeout)`, or nothing when the accessor gave no element |
| Pages.Opened | pages/LoginPage.js:67-75 | the `isOpened` chain; stated by `OpenedQueries`, `OpenedTruthy` and `OpenedStops` |
| Pages.EnterText | pages/LoginPage.js:85-116 | `enterUsername`/`enterPassword`; stated by `EnterSkipsEmpty` and `EnterSetsValueOnce` |
| Pages.ClickButton | pages/LoginPage.js:124-131 | `clickLoginButton`; stated by `ClickAtMostOnce` |
| Pages.LoginRun | pages/LoginPage.js:142-151 | `login`: the three steps in order; stated by `LoginOrder` and `LoginContinuesAfterSkippedUsername` |
| Pages.HandleCases | pages/BasePage.js:60-69 | `getMobileElement` never throws: a missing name gives undefined, a nullish or `""` value gives null, an element exactly when `getLocator` gave a selector (with that selector), undefined exactly when it threw |
| Pages.HandleByType | pages/BasePage.js:60-69 | for a stored string without template, the handle's selector follows the locator type; any other type gives undefined |
| Pages.OpenedQueries | pages/LoginPage.js:67-75 | `isOpened` issues only queries, at most two per element |
| Pages.OpenedTruthy | pages/LoginPage.js:67-75 | `isOpened` is truthy iff every element, in order, took a lookup and a `waitForDisplayed(timeout)` that answered truthy |
| Pages.OpenedStops | pages/LoginPage.js:67-75 | a falsy `isOpened` stopped at some element: every earlier element took a lookup and a truthy wait, nothing follows that element's requests, and the result is its wait's answer, or `false` when its accessor gave no element or the lookup found nothing |
| Pages.EnterSkipsEmpty | pages/LoginPage.js:85-116 | a nullish or empty text returns before any lookup, with nothing issued |
| Pages.EnterSetsValueOnce | pages/LoginPage.js:85-116 | entering text issues `setValue(text)` at most once, otherwise only queries and the pause after it |
| Pages.ClickAtMostOnce | pages/LoginPage.js:124-131 | clicking the login button issues `click` at most once, otherwise only queries and the pause after it |
| Pages.LoginOrder | pages/LoginPage.js:142-151 | the `login` trace splits into three consecutive parts: the username's `setValue`, the password's, then the `click`, each at most once |
| Pages.LoginContinuesAfterSkippedUsername | pages/LoginPage.js:142-151 | a skipped username does not stop `login`: the password and the click still run from the same state |
| Pages.BasePage.constructor | pages/BasePage.js:19-24 | the page captures the current locale and platform and starts an empty strings reader |
| Pages.BasePage.GetLocaleStrings | pages/BasePage.js:30-32 | answers the page's strings reader |
| Pages.BasePage.GetPlatform | pages/BasePage.js:39-41 | answers the captured platform |
| Pages.BasePage.GetLocale | pages/BasePage.js:48-50 | answers the captured locale |
| Pages.BasePage.GetMobileElement | pages/BasePage.js:60-69 | the reader's new set and the handle equal the handle specification on the old set |
| Pages.SettingsCapturedOnce | pages/BasePage.js:19-24 | a page keeps the locale and platform it captured, whatever the settings become later |
| Pages.LoginPage.constructor | pages/LoginPage.js:21-25 | the login page holds its base page and its locator reader |
| Pages.LoginPage.IsOpened | pages/LoginPage.js:67-75 | the four-operand `&&` chain equals the `isOpened` specification over logo, username, password and login button |
| Pages.LoginPage.EnterUsername | pages/LoginPage.js:85-96 | equals the text-entry specification on the username element |
| Pages.LoginPage.EnterPassword | pages/LoginPage.js:105-116 | equals the text-entry specification on the password element |
| Pages.LoginPage.EnterInto | pages/LoginPage.js:85-116 | the shared body: guard, accessor, `setValue`, equal to the text-entry specification |
| Pages.LoginPage.ClickLoginButton | pages/LoginPage.js:124-131 | equals the click specification on the login button |
| Pages.LoginPage.Login | pages/LoginPage.js:142-151 | equals the three steps run in order, each from the state the previous one left |
| Pages.NewLoginPage | pages/LoginPage.js:21-25 | construction succeeds iff the catalog holds `loginPage` for the captured platform; otherwise that error propagates |

## Left out

- Defaults: every default argument is an explicit parameter. These are `config.waitforTimeout` and `config.pause`, `scrollUntilDisplayed`'s `maxScroll = 10`, and `swipe`/`swipeWithinElement`'s `repeat = 1`, `duration = 1000` and `pause = 100`.
- Clocks: timeouts and pauses are numbers passed to the driver. Nothing models elapsed time, polling or `Utilities.pause`.
- Logging: every `Logger` call is left out. The `methodName` and logger parameters of the page methods are dropped.
- `CustomException` message text is not modelled. Errors are datatype values that carry the same details.
- Regex predicates: `isEqualUsingRegex` and its three variants depend on the JavaScript `RegExp` engine.
- Lower-casing: `toLowerCase` is ASCII-only lower-casing.
- `String.replace` `$` patterns: a replacement string is inserted literally, so `$&` and similar patterns are not expanded.
- Object-prototype names in a locator set: keys such as `constructor` or `__proto__` are not treated specially, because the set is a plain map. For `DIRECTION` they are modelled (`Constant.DirectionLookup`).
- Catalog input: reading the directory and `JSON.parse` are left out. The reader receives the listing as parsed content, and a parse failure is an error value.
- Falsy catalog entries: the source tests `fileLocators[page] && fileLocators[page][platform]` for truthiness, but the model's catalog cannot hold a JSON `null` or other falsy value at those two levels. A present key therefore always counts as found.
- Strings input: the dynamic `import` of strings files is left out. Registration is a separate `Register` call with the entries a file exports. A locale's strings are assumed to be an array of `{page, strings}` entries, with strings as a map from string to string.
- Setting types: the three global settings are typed as strings, although the source accepts any value.
- Getter results: `getText`, `getAttribute`, `getLocation` and `getSize` discard the driver's answer and return null. The model does the same (`Mobile.Get`).
- `waitUntilElement`: it returns undefined on success and `false` on a throw. The model does the same.
- The `"pointerMovie"` action type string is kept as the source writes it.
- Direction errors: a key whose `DIRECTION` value is falsy raises `InvalidDirection(duration)`, because `duration` is the value the source's message reports. A key inherited from `Object.prototype` raises `UnmatchedDirection`, the `default` branch of the switch. That branch's message text is not modelled.
- Non-string arguments to the string predicates: the `Utilities` predicates take strings. In the source, a non-string `actual` or `expected` (such as `undefined`) makes `toLowerCase` throw a TypeError, and that error path is not modelled.
- Misshaped geometry answers: `Swipe.ReadFrame` treats any `getWindowSize`, `getSize` or `getLocation` answer that is not a size or location as a driver error. In the source, destructuring a non-nullish value of another shape does not throw. It yields `NaN` coordinates and goes on to `performActions`, and this is not modelled.
- `LoginPage` inheritance is modelled as composition: a `base` field holds the `BasePage`.
- Other classes: `Expect`, `TabBar`, the test steps and the step runner are not part of this model.
- Swipe.Swipe: the method's contract states equality with the loop specification. The gesture count comes from the separate lemma `Swipe.SwipeRunGestures`.
- Swipe.SwipeWithinElement: the same applies; the gesture count comes from `Swipe.SwipeRunGestures`.
