/**
 * The locator catalog reader of utils/LocatorReader.js.
 *
 * The catalog files are given as a listing of names with their parsed JSON
 * content: reading the directory and the files is outside the model, and a
 * file whose text is not valid JSON has no content. A parsed file maps page
 * names to platforms to a locator set; a locator set maps element names to
 * entries, and `getLocator` turns an entry into a selector string, writing a
 * template substitution back into the stored entry.
 */
module Locators {
  import opened Js
  import opened Utilities
  import Constant

  /** A locator entry as the JSON holds it; a JSON `null` entry is `NullEntry`. */
  datatype LocatorEntry =
    | NullEntry
    | Locator(name: Value, locatorType: Value, value: Value)

  type LocatorSet = map<string, LocatorEntry>

  /** A parsed catalog file: page name to platform name to locator set. */
  type Catalog = map<string, map<string, LocatorSet>>

  /** One directory entry: its name, and its parsed content (`None` when `JSON.parse` throws). */
  datatype CatalogFile = CatalogFile(fileName: string, content: Option<Catalog>)

  /** The `CustomException`s the reader throws (message text aside), and the runtime errors it lets through. */
  datatype LocatorError =
    | LocatorsNotFound(page: string, platform: string)
    | LocatorNotFound(elementName: string, page: string, platform: string)
    | MissingTemplateValue
    | InvalidLocatorType(locatorType: Value, locatorName: Value)
    | UnsupportedLocatorType(locatorType: Value, locatorName: Value)
    | MalformedJson(fileName: string)     // `JSON.parse` throws a SyntaxError
    | NotAString                          // `locator.value.includes` on a non-string throws a TypeError

  const TEMPLATE := "%text%"
  const JSON_EXTENSION := ".json"

  /** `extname(file) === ".json"` for a bare directory entry name: a non-empty stem before the extension. */
  predicate IsJsonFile(fileName: string) {
    |fileName| > |JSON_EXTENSION| && fileName[|fileName| - |JSON_EXTENSION|..] == JSON_EXTENSION
  }

  /** `fileLocators[page] && fileLocators[page][platform]`: the file holds the pair. */
  predicate Supplies(f: CatalogFile, page: string, platform: string) {
    IsJsonFile(f.fileName) && f.content.Some? && page in f.content.value && platform in f.content.value[page]
  }

  /** The `loadLocators` search: the first `.json` file, in listing order, that holds the pair. */
  function FindLocators(files: seq<CatalogFile>, page: string, platform: string): Result<LocatorSet, LocatorError> {
    if files == [] then Err(LocatorsNotFound(page, platform))
    else if !IsJsonFile(files[0].fileName) then FindLocators(files[1..], page, platform)
    else if files[0].content.None? then Err(MalformedJson(files[0].fileName))
    else if Supplies(files[0], page, platform) then Ok(files[0].content.value[page][platform])
    else FindLocators(files[1..], page, platform)
  }

  /** A file the search reads and passes over: not `.json`, or parsed without the pair. */
  predicate PassedOver(f: CatalogFile, page: string, platform: string) {
    !IsJsonFile(f.fileName) || (f.content.Some? && !Supplies(f, page, platform))
  }

  /**
   * The set comes from the first file that supplies the pair, provided every
   * file before it is passed over.
   */
  lemma {:induction false} FindLocatorsFirstMatch(files: seq<CatalogFile>, page: string, platform: string, i: nat)
    requires i < |files| && Supplies(files[i], page, platform)
    requires forall j :: 0 <= j < i ==> PassedOver(files[j], page, platform)
    ensures FindLocators(files, page, platform) == Ok(files[i].content.value[page][platform])
    decreases i
  {
    if i > 0 {
      FindLocatorsFirstMatch(files[1..], page, platform, i - 1);
    }
  }

  /** When every file is passed over, the search throws with details `{page, platform}`. */
  lemma {:induction false} FindLocatorsNotFound(files: seq<CatalogFile>, page: string, platform: string)
    requires forall j :: 0 <= j < |files| ==> PassedOver(files[j], page, platform)
    ensures FindLocators(files, page, platform) == Err(LocatorsNotFound(page, platform))
    decreases |files|
  {
    if files != [] {
      FindLocatorsNotFound(files[1..], page, platform);
    }
  }

  /** Once a listing yields a set, files listed after it change nothing, even unreadable ones. */
  lemma {:induction false} LaterFilesIgnored(files: seq<CatalogFile>, later: seq<CatalogFile>, page: string, platform: string)
    requires FindLocators(files, page, platform).Ok?
    ensures FindLocators(files + later, page, platform) == FindLocators(files, page, platform)
    decreases |files|
  {
    assert files != [];
    assert (files + later)[0] == files[0];
    assert (files + later)[1..] == files[1..] + later;
    if !Supplies(files[0], page, platform) {
      LaterFilesIgnored(files[1..], later, page, platform);
    }
  }

  /** Files whose name does not end in `.json` are never read. */
  lemma {:induction false} NonJsonFilesIgnored(files: seq<CatalogFile>, f: CatalogFile, page: string, platform: string)
    requires !IsJsonFile(f.fileName)
    ensures FindLocators([f] + files, page, platform) == FindLocators(files, page, platform)
  {
    assert ([f] + files)[1..] == files;
  }

  /**
   * `loadLocators`: the `for ... of` loop over the listing with its `break`,
   * then the `isUndefined(locators)` check.
   */
  method LoadLocators(files: seq<CatalogFile>, page: string, platform: string)
    returns (r: Result<LocatorSet, LocatorError>)
    ensures r == FindLocators(files, page, platform)
  {
    var locators: Option<LocatorSet> := None;
    var i := 0;
    while i < |files|
      invariant 0 <= i <= |files|
      invariant FindLocators(files, page, platform) == FindLocators(files[i..], page, platform)
    {
      var file := files[i];
      assert files[i..][1..] == files[i + 1..];
      if IsJsonFile(file.fileName) {
        if file.content.None? {
          return Err(MalformedJson(file.fileName));
        }
        var fileLocators := file.content.value;
        if page in fileLocators && platform in fileLocators[page] {
          locators := Some(fileLocators[page][platform]);
          break;
        }
      }
      i := i + 1;
    }
    if locators.None? {
      return Err(LocatorsNotFound(page, platform));
    }
    return Ok(locators.value);
  }

  /**
   * `Object.keys(Constant.LOCATOR_TYPE).find(key => LOCATOR_TYPE[key] === type)`:
   * the first key, in declaration order, whose value is `type`.
   */
  function TypeKey(locatorType: Value): Option<string> {
    FindKey(Constant.LOCATOR_TYPE, locatorType)
  }

  /** `find` over the `(key, value)` pairs of a table. */
  function FindKey(table: seq<(string, string)>, v: Value): Option<string> {
    if table == [] then None
    else if v == Str(table[0].1) then Some(table[0].0)
    else FindKey(table[1..], v)
  }

  /** `find` gives `None` iff no pair holds `v`, and otherwise the key of the first pair that does. */
  lemma {:induction false} FindKeyFirst(table: seq<(string, string)>, v: Value)
    ensures FindKey(table, v).None? <==> forall i :: 0 <= i < |table| ==> v != Str(table[i].1)
    ensures FindKey(table, v).Some? ==>
              exists i :: 0 <= i < |table| && table[i] == (FindKey(table, v).value, v.s) &&
                          forall j :: 0 <= j < i ==> v != Str(table[j].1)
    decreases |table|
  {
    if table != [] && v != Str(table[0].1) {
      FindKeyFirst(table[1..], v);
      var r := FindKey(table[1..], v);
      if r.Some? {
        var i :| 0 <= i < |table[1..]| && table[1..][i] == (r.value, v.s) &&
                 forall j :: 0 <= j < i ==> v != Str(table[1..][j].1);
        assert table[i + 1] == (r.value, v.s);
        forall j | 0 <= j < i + 1 ensures v != Str(table[j].1) {
          if j > 0 {
            assert table[j] == table[1..][j - 1];
          }
        }
      } else {
        forall i | 0 <= i < |table| ensures v != Str(table[i].1) {
          if i > 0 {
            assert table[i] == table[1..][i - 1];
          }
        }
      }
    }
  }

  /** The key `TypeKey` finds for each of the four type values, and none for any other value. */
  lemma TypeKeyValues(v: Value)
    ensures v == Str("class_chain") ==> TypeKey(v) == Some("CLASS_CHAIN")
    ensures v == Str("xpath") ==> TypeKey(v) == Some("XPATH")
    ensures v == Str("accessibility_id") ==> TypeKey(v) == Some("ACCESSIBILITY_ID")
    ensures v == Str("predicate_string") ==> TypeKey(v) == Some("PREDICATE_STRING")
    ensures v !in {Str("xpath"), Str("accessibility_id"), Str("class_chain"), Str("predicate_string")} ==> TypeKey(v).None?
  {
    var table := Constant.LOCATOR_TYPE;
    assert table[1..] == [("XPATH", "xpath"), ("ACCESSIBILITY_ID", "accessibility_id"), ("PREDICATE_STRING", "predicate_string")];
    assert table[1..][1..] == [("ACCESSIBILITY_ID", "accessibility_id"), ("PREDICATE_STRING", "predicate_string")];
    assert table[1..][1..][1..] == [("PREDICATE_STRING", "predicate_string")];
    assert table[1..][1..][1..][1..] == [];
    if v !in {Str("xpath"), Str("accessibility_id"), Str("class_chain"), Str("predicate_string")} {
      assert FindKey(table, v) == FindKey(table[1..], v);
      assert FindKey(table[1..], v) == FindKey(table[1..][1..], v);
      assert FindKey(table[1..][1..], v) == FindKey(table[1..][1..][1..], v);
      assert FindKey(table[1..][1..][1..], v) == FindKey(table[1..][1..][1..][1..], v);
    }
  }

  /** The `switch (locatorType.toLowerCase())`; `None` is the `default` branch. */
  function Dispatch(lowered: string, value: string): Option<string> {
    if lowered == "xpath" then Some(value)
    else if lowered == "accessibility_id" then Some("~" + value)
    else if lowered == "class_chain" then Some("-ios class chain:" + value)
    else if lowered == "predicate_string" then Some("-ios predicate string:" + value)
    else None
  }

  /** An entry after `constructSelector`, and what the call produced. */
  datatype Constructed = Constructed(entry: LocatorEntry, selector: Result<string, LocatorError>)

  /**
   * `constructSelector(locator, appendValue)`: substitute the first `%text%`
   * and store the result in the entry, then map the type to its key and
   * dispatch on the lower-cased key.
   */
  function ConstructSelector(l: LocatorEntry, appendValue: Value): Constructed
    requires l.Locator?
  {
    if !l.value.Str? then Constructed(l, Err(NotAString))
    else if Includes(l.value.s, TEMPLATE) && IsUndefined(appendValue) && IsEmpty(appendValue) then
      Constructed(l, Err(MissingTemplateValue))
    else
      var l' := if Includes(l.value.s, TEMPLATE)
                then l.(value := Str(ReplaceFirst(l.value.s, TEMPLATE, ToJsString(appendValue))))
                else l;
      match TypeKey(l'.locatorType)
      case None => Constructed(l', Err(InvalidLocatorType(l'.locatorType, l'.name)))
      case Some(key) =>
        match Dispatch(Lower(key), l'.value.s)
        case None => Constructed(l', Err(UnsupportedLocatorType(l'.locatorType, l'.name)))
        case Some(selector) => Constructed(l', Ok(selector))
  }

  /** Each `LOCATOR_TYPE` key, lower-cased, is its own value. */
  lemma LocatorKeysLowerToValues()
    ensures forall i :: 0 <= i < |Constant.LOCATOR_TYPE| ==> Lower(Constant.LOCATOR_TYPE[i].0) == Constant.LOCATOR_TYPE[i].1
  {
    assert Lower("CLASS_CHAIN") == "class_chain";
    assert Lower("XPATH") == "xpath";
    assert Lower("ACCESSIBILITY_ID") == "accessibility_id";
    assert Lower("PREDICATE_STRING") == "predicate_string";
  }

  /** Hence the dispatch is total on the keys `TypeKey` can return: the `default` branch is unreachable. */
  lemma DispatchTotal(locatorType: Value, value: string)
    requires TypeKey(locatorType).Some?
    ensures Dispatch(Lower(TypeKey(locatorType).value), value).Some?
  {
    LocatorKeysLowerToValues();
    FindKeyFirst(Constant.LOCATOR_TYPE, locatorType);
  }

  /** The selector each of the four keys dispatches to, once lower-cased. */
  lemma DispatchOnKeys(v: string)
    ensures Dispatch(Lower("XPATH"), v) == Some(v)
    ensures Dispatch(Lower("ACCESSIBILITY_ID"), v) == Some("~" + v)
    ensures Dispatch(Lower("CLASS_CHAIN"), v) == Some("-ios class chain:" + v)
    ensures Dispatch(Lower("PREDICATE_STRING"), v) == Some("-ios predicate string:" + v)
  {
    assert Lower("CLASS_CHAIN") == "class_chain";
    assert Lower("XPATH") == "xpath";
    assert Lower("ACCESSIBILITY_ID") == "accessibility_id";
    assert Lower("PREDICATE_STRING") == "predicate_string";
  }

  /**
   * The selector for each locator type, for a string value without a
   * template: xpath as is, accessibility id behind `~`, and the two iOS
   * strategies behind their prefixes; any other type is rejected. The
   * entry is left as it was.
   */
  lemma SelectorByType(l: LocatorEntry, appendValue: Value)
    requires l.Locator? && l.value.Str? && !Includes(l.value.s, TEMPLATE)
    ensures var c := ConstructSelector(l, appendValue);
            var v := l.value.s;
            c.entry == l &&
            (l.locatorType == Str("xpath") ==> c.selector == Ok(v)) &&
            (l.locatorType == Str("accessibility_id") ==> c.selector == Ok("~" + v)) &&
            (l.locatorType == Str("class_chain") ==> c.selector == Ok("-ios class chain:" + v)) &&
            (l.locatorType == Str("predicate_string") ==> c.selector == Ok("-ios predicate string:" + v)) &&
            (l.locatorType !in {Str("xpath"), Str("accessibility_id"), Str("class_chain"), Str("predicate_string")} ==>
               c.selector == Err(InvalidLocatorType(l.locatorType, l.name)))
  {
    TypeKeyValues(l.locatorType);
    DispatchOnKeys(l.value.s);
  }


  /**
   * `constructSelector` never throws the missing-append-value error (its
   * guard asks for a value both nullish and `""`) nor the unsupported-type
   * error (the `default` branch).
   */
  lemma ConstructNeverMissingOrUnsupported(l: LocatorEntry, appendValue: Value)
    requires l.Locator?
    ensures var c := ConstructSelector(l, appendValue);
            c.selector != Err(MissingTemplateValue) &&
            !(c.selector.Err? && c.selector.error.UnsupportedLocatorType?)
  {
    UndefinedAndEmptyExclusive(appendValue);
    var c := ConstructSelector(l, appendValue);
    if l.value.Str? {
      var l' := c.entry;
      if TypeKey(l'.locatorType).Some? {
        DispatchTotal(l'.locatorType, l'.value.s);
      }
    }
  }

  /**
   * A value holding `%text%` has its first occurrence replaced by the string
   * form of `appendValue`, and the entry keeps that new value whatever the
   * type check decides afterwards; nothing else in the entry changes. The
   * selector is then built from the substituted value: the dispatch on the
   * type's key, or the invalid-type error when the type has no key.
   */
  lemma TemplateWrittenBack(l: LocatorEntry, appendValue: Value)
    requires l.Locator? && l.value.Str? && Includes(l.value.s, TEMPLATE)
    ensures var c := ConstructSelector(l, appendValue);
            var i := IndexOf(l.value.s, TEMPLATE);
            var v' := l.value.s[..i] + ToJsString(appendValue) + l.value.s[i + |TEMPLATE|..];
            c.entry == l.(value := Str(v')) &&
            (TypeKey(l.locatorType).Some? ==>
               Dispatch(Lower(TypeKey(l.locatorType).value), v').Some? &&
               c.selector == Ok(Dispatch(Lower(TypeKey(l.locatorType).value), v').value)) &&
            (TypeKey(l.locatorType).None? ==> c.selector == Err(InvalidLocatorType(l.locatorType, l.name)))
  {
    UndefinedAndEmptyExclusive(appendValue);
    if TypeKey(l.locatorType).Some? {
      var i := IndexOf(l.value.s, TEMPLATE);
      DispatchTotal(l.locatorType, l.value.s[..i] + ToJsString(appendValue) + l.value.s[i + |TEMPLATE|..]);
    }
  }

  /**
   * `getLocator(elementName)` on the stored set: the set after the call (the
   * entry may have been rewritten) and the selector, `None` for `null`.
   */
  function Resolve(locators: LocatorSet, elementName: string, page: string, platform: string): (LocatorSet, Result<Option<string>, LocatorError>) {
    if elementName !in locators || locators[elementName].NullEntry? then
      (locators, Err(LocatorNotFound(elementName, page, platform)))
    else
      var l := locators[elementName];
      if IsUndefined(l.value) || IsEmpty(l.value) then (locators, Ok(None))
      else
        var c := ConstructSelector(l, Undefined);
        (locators[elementName := c.entry],
         if c.selector.Ok? then Ok(Some(c.selector.value)) else Err(c.selector.error))
  }

  /**
   * A missing (or JSON `null`) entry throws with details `{elementName, page,
   * platform}`; an entry whose value is nullish or `""` gives `null`; in both
   * cases the set is unchanged. Every other entry keeps its value.
   */
  lemma ResolveCases(locators: LocatorSet, elementName: string, page: string, platform: string)
    ensures var (after, r) := Resolve(locators, elementName, page, platform);
            after.Keys == locators.Keys &&
            (forall n :: n in locators && n != elementName ==> after[n] == locators[n]) &&
            ((elementName !in locators || locators[elementName].NullEntry?) ==>
               after == locators && r == Err(LocatorNotFound(elementName, page, platform))) &&
            (elementName in locators && locators[elementName].Locator? &&
             (IsUndefined(locators[elementName].value) || IsEmpty(locators[elementName].value)) ==>
               after == locators && r == Ok(None))
  {
  }

  /**
   * Through `getLocator` no append value is passed, so a template resolves
   * with `%text%` replaced by the text "undefined"; that value is what the
   * entry holds from then on, and the selector returned is built from it
   * by the locator type.
   */
  lemma ResolveTemplateUndefined(locators: LocatorSet, elementName: string, page: string, platform: string)
    requires elementName in locators && locators[elementName].Locator?
    requires locators[elementName].value.Str? && Includes(locators[elementName].value.s, TEMPLATE)
    ensures var l := locators[elementName];
            var i := IndexOf(l.value.s, TEMPLATE);
            var v' := l.value.s[..i] + "undefined" + l.value.s[i + |TEMPLATE|..];
            var (after, r) := Resolve(locators, elementName, page, platform);
            after[elementName] == l.(value := Str(v')) &&
            (l.locatorType == Str("xpath") ==> r == Ok(Some(v'))) &&
            (l.locatorType == Str("accessibility_id") ==> r == Ok(Some("~" + v'))) &&
            (l.locatorType == Str("class_chain") ==> r == Ok(Some("-ios class chain:" + v'))) &&
            (l.locatorType == Str("predicate_string") ==> r == Ok(Some("-ios predicate string:" + v'))) &&
            (l.locatorType !in {Str("xpath"), Str("accessibility_id"), Str("class_chain"), Str("predicate_string")} ==>
               r == Err(InvalidLocatorType(l.locatorType, l.name)))
  {
    var l := locators[elementName];
    TemplateWrittenBack(l, Undefined);
    TypeKeyValues(l.locatorType);
    DispatchOnKeys(l.value.s[..IndexOf(l.value.s, TEMPLATE)] + "undefined" + l.value.s[IndexOf(l.value.s, TEMPLATE) + |TEMPLATE|..]);
  }

  /** A value without a template leaves the set exactly as it was. */
  lemma ResolveWithoutTemplateKeepsSet(locators: LocatorSet, elementName: string, page: string, platform: string)
    requires elementName in locators && locators[elementName].Locator?
    requires !locators[elementName].value.Str? || !Includes(locators[elementName].value.s, TEMPLATE)
    ensures Resolve(locators, elementName, page, platform).0 == locators
  {
    var l := locators[elementName];
    if !(IsUndefined(l.value) || IsEmpty(l.value)) {
      assert ConstructSelector(l, Undefined).entry == l;
      assert locators[elementName := l] == locators;
    }
  }

  /** A `LocatorReader` object: the page and platform it was built for, and its (mutable) locator set. */
  class LocatorReader {
    const page: string
    const platform: string
    var locators: LocatorSet

    constructor (page: string, platform: string, locators: LocatorSet)
      ensures this.page == page && this.platform == platform && this.locators == locators
    {
      this.page := page;
      this.platform := platform;
      this.locators := locators;
    }

    /** `getLocator(elementName)`: the lookup, the two guards, then `constructSelector` on the stored entry. */
    method GetLocator(elementName: string) returns (r: Result<Option<string>, LocatorError>)
      modifies this
      ensures (locators, r) == Resolve(old(locators), elementName, page, platform)
    {
      if elementName !in locators || locators[elementName].NullEntry? {
        return Err(LocatorNotFound(elementName, page, platform));
      }
      var locator := locators[elementName];
      if IsUndefined(locator.value) || IsEmpty(locator.value) {
        return Ok(None);
      }
      var c := ConstructSelector(locator, Undefined);
      locators := locators[elementName := c.entry];
      if c.selector.Err? {
        return Err(c.selector.error);
      }
      return Ok(Some(c.selector.value));
    }
  }

  /** `new LocatorReader(page, platform)`: the constructor runs `loadLocators`, whose error propagates. */
  method NewLocatorReader(page: string, platform: string, files: seq<CatalogFile>)
    returns (r: Result<LocatorReader, LocatorError>)
    ensures r.Ok? <==> FindLocators(files, page, platform).Ok?
    ensures r.Err? ==> r.error == FindLocators(files, page, platform).error
    ensures r.Ok? ==> fresh(r.value) && r.value.page == page && r.value.platform == platform &&
                      r.value.locators == FindLocators(files, page, platform).value
  {
    var loaded := LoadLocators(files, page, platform);
    if loaded.Err? {
      return Err(loaded.error);
    }
    var reader := new LocatorReader(page, platform, loaded.value);
    return Ok(reader);
  }
}
