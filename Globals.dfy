/**
 * utils/GlobalVariables.js: three process-wide settings behind static
 * getters and setters. The static private fields become the fields of one
 * `GlobalVariables` object that the rest of the model is handed.
 */
module Globals {

  class GlobalVariables {
    var locale: string
    var platform: string
    var customLogLevel: string

    /** The three fields start as the empty string. */
    constructor ()
      ensures locale == "" && platform == "" && customLogLevel == ""
    {
      locale := "";
      platform := "";
      customLogLevel := "";
    }

    method GetLocale() returns (r: string)
      ensures r == locale
    {
      return locale;
    }

    /** Overwrites the locale; the other two settings keep their values. */
    method SetLocale(newValue: string)
      modifies this
      ensures locale == newValue
      ensures platform == old(platform) && customLogLevel == old(customLogLevel)
    {
      locale := newValue;
    }

    method GetPlatform() returns (r: string)
      ensures r == platform
    {
      return platform;
    }

    /** Overwrites the platform; the other two settings keep their values. */
    method SetPlatform(newValue: string)
      modifies this
      ensures platform == newValue
      ensures locale == old(locale) && customLogLevel == old(customLogLevel)
    {
      platform := newValue;
    }

    method GetCustomLogLevel() returns (r: string)
      ensures r == customLogLevel
    {
      return customLogLevel;
    }

    /** Overwrites the log level; the other two settings keep their values. */
    method SetCustomLogLevel(newValue: string)
      modifies this
      ensures customLogLevel == newValue
      ensures locale == old(locale) && platform == old(platform)
    {
      customLogLevel := newValue;
    }
  }

  /** The three settings. */
  datatype Setting = Locale | Platform | CustomLogLevel

  /** One setter call: `setLocale(value)`, `setPlatform(value)` or `setCustomLogLevel(value)`. */
  datatype Update = Update(setting: Setting, value: string)

  /** The value of `setting` after `updates`, starting from `initial`: the value of the last call that sets it. */
  function Latest(updates: seq<Update>, setting: Setting, initial: string): string
    decreases |updates|
  {
    if updates == [] then initial
    else if updates[|updates| - 1].setting == setting then updates[|updates| - 1].value
    else Latest(updates[..|updates| - 1], setting, initial)
  }

  /** A setting answers the value of the last call that set it, whatever calls to the other setters came after. */
  lemma {:induction false} LatestSetWins(updates: seq<Update>, setting: Setting, initial: string, i: nat)
    requires i < |updates| && updates[i].setting == setting
    requires forall j :: i < j < |updates| ==> updates[j].setting != setting
    ensures Latest(updates, setting, initial) == updates[i].value
    decreases |updates|
  {
    if i < |updates| - 1 {
      LatestSetWins(updates[..|updates| - 1], setting, initial, i);
    }
  }

  /** A setting no call sets keeps its value. */
  lemma {:induction false} UnsetKeeps(updates: seq<Update>, setting: Setting, initial: string)
    requires forall j :: 0 <= j < |updates| ==> updates[j].setting != setting
    ensures Latest(updates, setting, initial) == initial
    decreases |updates|
  {
    if updates != [] {
      UnsetKeeps(updates[..|updates| - 1], setting, initial);
    }
  }

  /** Any sequence of setter calls: each getter then answers the latest value of its own setting. */
  method ApplyUpdates(g: GlobalVariables, updates: seq<Update>)
    modifies g
    ensures g.locale == Latest(updates, Locale, old(g.locale))
    ensures g.platform == Latest(updates, Platform, old(g.platform))
    ensures g.customLogLevel == Latest(updates, CustomLogLevel, old(g.customLogLevel))
  {
    for i := 0 to |updates|
      invariant g.locale == Latest(updates[..i], Locale, old(g.locale))
      invariant g.platform == Latest(updates[..i], Platform, old(g.platform))
      invariant g.customLogLevel == Latest(updates[..i], CustomLogLevel, old(g.customLogLevel))
    {
      assert updates[..i + 1][..i] == updates[..i];
      var u := updates[i];
      match u.setting
      case Locale => g.SetLocale(u.value);
      case Platform => g.SetPlatform(u.value);
      case CustomLogLevel => g.SetCustomLogLevel(u.value);
    }
    assert updates[..|updates|] == updates;
  }
}
