/**
 * utils/StringReader.js: the per-locale page strings.
 *
 * A strings file exports a list of `{ locale, strings }` entries, where
 * `strings` is the list of `{ page, strings }` entries of that locale. The
 * reader keeps one `Map` from locale to that list. Reading the directory
 * and importing the files are left out: registration takes the list of
 * entries a file exports.
 */
module Strings {
  import opened Js

  /** The strings of one page, by key. */
  type PageStrings = map<string, string>

  /** `{ page, strings }`. */
  datatype PageEntry = PageEntry(page: string, strings: PageStrings)

  /** `{ locale, strings }`, one element of a strings file's default export. */
  datatype LocaleEntry = LocaleEntry(locale: string, strings: seq<PageEntry>)

  /** The two `CustomException`s of `getPageStrings`. */
  datatype StringsError =
    | NoLocaleStrings(locale: string)
    | NoPageStrings(page: string, locale: string)

  /** The locale map after `map.set(locale, strings)` for each entry, in order. */
  function Registered(m: map<string, seq<PageEntry>>, entries: seq<LocaleEntry>): map<string, seq<PageEntry>>
    decreases |entries|
  {
    if entries == [] then m
    else
      var last := entries[|entries| - 1];
      Registered(m, entries[..|entries| - 1])[last.locale := last.strings]
  }

  /** Registration adds exactly the locales of the entries. */
  lemma {:induction false} RegisteredKeys(m: map<string, seq<PageEntry>>, entries: seq<LocaleEntry>)
    ensures Registered(m, entries).Keys == m.Keys + set e | e in entries :: e.locale
    decreases |entries|
  {
    if entries != [] {
      var init := entries[..|entries| - 1];
      RegisteredKeys(m, init);
      assert entries == init + [entries[|entries| - 1]];
      assert (set e | e in entries :: e.locale) == (set e | e in init :: e.locale) + {entries[|entries| - 1].locale};
    }
  }

  /** A locale that no entry names keeps what it had. */
  lemma {:induction false} RegisteredUntouched(m: map<string, seq<PageEntry>>, entries: seq<LocaleEntry>, locale: string)
    requires locale in m
    requires forall i :: 0 <= i < |entries| ==> entries[i].locale != locale
    ensures locale in Registered(m, entries) && Registered(m, entries)[locale] == m[locale]
    decreases |entries|
  {
    if entries != [] {
      RegisteredUntouched(m, entries[..|entries| - 1], locale);
    }
  }

  /**
   * `Map.set` overwrites: the strings a locale ends up with are those of the
   * last entry that names it, whatever came before.
   */
  lemma {:induction false} LastRegistrationWins(m: map<string, seq<PageEntry>>, entries: seq<LocaleEntry>, i: nat)
    requires i < |entries|
    requires forall j :: i < j < |entries| ==> entries[j].locale != entries[i].locale
    ensures entries[i].locale in Registered(m, entries)
    ensures Registered(m, entries)[entries[i].locale] == entries[i].strings
    decreases |entries|
  {
    if i < |entries| - 1 {
      LastRegistrationWins(m, entries[..|entries| - 1], i);
    }
  }

  /** `list.find((p) => p.page === page)`: the first entry for the page. */
  function FindPage(entries: seq<PageEntry>, page: string): Option<PageEntry>
    decreases |entries|
  {
    if entries == [] then None
    else if entries[0].page == page then Some(entries[0])
    else FindPage(entries[1..], page)
  }

  /** `find` answers the entry at the first index whose page matches, and nothing when none does. */
  lemma {:induction false} FindPageFirst(entries: seq<PageEntry>, page: string)
    ensures FindPage(entries, page).None? <==> forall j :: 0 <= j < |entries| ==> entries[j].page != page
    ensures forall i :: 0 <= i < |entries| && entries[i].page == page &&
                        (forall j :: 0 <= j < i ==> entries[j].page != page) ==>
              FindPage(entries, page) == Some(entries[i])
    decreases |entries|
  {
    if entries != [] && entries[0].page != page {
      FindPageFirst(entries[1..], page);
      assert forall j :: 1 <= j < |entries| ==> entries[j] == entries[1..][j - 1];
    }
  }

  /** The locale map of `getPageStrings`, without the reader around it. */
  function LookupPageStrings(m: map<string, seq<PageEntry>>, locale: string, page: string): Result<PageStrings, StringsError> {
    if locale !in m then Err(NoLocaleStrings(locale))
    else
      var p := FindPage(m[locale], page);
      if p.None? then Err(NoPageStrings(page, locale)) else Ok(p.value.strings)
  }

  /**
   * The outcome of `getPageStrings`: an unknown locale throws first; a known
   * locale without the page throws the page error; otherwise the strings of
   * the first entry for the page.
   */
  lemma PageStringsCases(m: map<string, seq<PageEntry>>, locale: string, page: string)
    ensures var r := LookupPageStrings(m, locale, page);
            (r == Err(NoLocaleStrings(locale)) <==> locale !in m) &&
            (r == Err(NoPageStrings(page, locale)) <==>
               locale in m && forall j :: 0 <= j < |m[locale]| ==> m[locale][j].page != page) &&
            (forall i :: locale in m && 0 <= i < |m[locale]| && m[locale][i].page == page &&
                         (forall j :: 0 <= j < i ==> m[locale][j].page != page) ==>
               r == Ok(m[locale][i].strings))
  {
    if locale in m {
      FindPageFirst(m[locale], page);
    }
  }

  /** A `StringReader` object and its locale map. */
  class StringReader {
    var strings: map<string, seq<PageEntry>>

    /** `new StringReader()` starts with an empty map; the files register into it later. */
    constructor ()
      ensures strings == map[]
    {
      strings := map[];
    }

    /** The loop over one file's default export: `this.strings.set(locale, strings)` per entry. */
    method Register(entries: seq<LocaleEntry>)
      modifies this
      ensures strings == Registered(old(strings), entries)
    {
      for i := 0 to |entries|
        invariant strings == Registered(old(strings), entries[..i])
      {
        assert entries[..i + 1][..i] == entries[..i];
        strings := strings[entries[i].locale := entries[i].strings];
      }
      assert entries[..|entries|] == entries;
    }

    /** `getPageStrings(locale, page)`: a lookup that leaves the map as it was. */
    method GetPageStrings(locale: string, page: string) returns (r: Result<PageStrings, StringsError>)
      ensures r == LookupPageStrings(strings, locale, page)
    {
      if locale !in strings {
        return Err(NoLocaleStrings(locale));
      }
      var localeData := strings[locale];
      var pageData := FindPage(localeData, page);
      if pageData.None? {
        return Err(NoPageStrings(page, locale));
      }
      return Ok(pageData.value.strings);
    }
  }
}
