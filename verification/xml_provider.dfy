/**
 * The mutable, file-loaded provider: one table per upper-cased language,
 * each mapping upper-cased keys to text, with a fallback to the provider's
 * own default-language table.
 */
module XmlProviders {
  import opened Wrappers
  import opened Errors
  import opened Cultures
  import opened Records
  import opened Text
  import OM = OrderedMaps

  /** The prefix the provider answers to until it is changed. */
  const DefaultPrefix: char := '#'

  /** One language's entries: upper-cased key to text. */
  type Table = OM.OrderedMap<string, string>

  /**
   * `prefix` is `StringPrefix`; `defaultLanguage` is `DefaultLanguage`,
   * which has no value until the host sets one; `tables` is the
   * `ListDictionary` of per-language tables, in the order they were created.
   */
  datatype XmlProvider = XmlProvider(prefix: char, defaultLanguage: Option<string>, tables: OM.OrderedMap<string, Table>)

  /** Tables are keyed once each by an upper-cased language, and every table is well formed. */
  ghost predicate Valid(x: XmlProvider) {
    && OM.Valid(x.tables)
    && forall l :: l in x.tables.items ==> Upper(l) == l && OM.Valid(x.tables.items[l])
  }

  /** The provider as its constructor leaves it: no tables and no default language. */
  function Empty(): (x: XmlProvider)
    ensures Valid(x)
    ensures x.prefix == DefaultPrefix && x.defaultLanguage.None?
    ensures GetSupportedLanguages(x) == []
  {
    XmlProvider(DefaultPrefix, None, OM.Empty())
  }

  /** The text stored under `key` in the table of `language`, when both exist. */
  function Get(x: XmlProvider, language: string, key: string): Option<string> {
    if language in x.tables.items then OM.Get(x.tables.items[language], key) else None
  }

  /** The table of `language`, or a fresh empty one when there is none yet. */
  function TableOrEmpty(x: XmlProvider, language: string): Table {
    if language in x.tables.items then x.tables.items[language] else OM.Empty()
  }

  /** Looks `code` up in the table of `language`, which must exist. */
  function LookupIn(x: XmlProvider, language: string, code: string): (r: Lookup)
    requires language in x.tables.items
    ensures r == FromOption(Get(x, language, Upper(code)))
  {
    var table := x.tables.items[language];
    var key := Upper(code);
    if key in table.items then Found(table.items[key]) else Missing(None)
  }

  /**
   * The table chosen once the first candidates have failed: that of the
   * upper-cased default language. An unset default language is a
   * `NullReference`; a default language without a table is `UnsupportedCulture`
   * carrying the code.
   */
  function FallbackLookup(x: XmlProvider, code: string): (r: Result<Lookup, Error>)
    ensures x.defaultLanguage.None? ==> r == Failure(NullReference)
    ensures x.defaultLanguage.Some? && Upper(x.defaultLanguage.value) !in x.tables.items ==>
              r == Failure(UnsupportedCulture(code))
    ensures x.defaultLanguage.Some? && Upper(x.defaultLanguage.value) in x.tables.items ==>
              r == Success(FromOption(Get(x, Upper(x.defaultLanguage.value), Upper(code))))
  {
    if x.defaultLanguage.None? then Failure(NullReference)
    else
      var fallback := Upper(x.defaultLanguage.value);
      if fallback in x.tables.items then Success(LookupIn(x, fallback, code))
      else Failure(UnsupportedCulture(code))
  }

  /**
   * `TryGetString(code, language)`: the table of the upper-cased language,
   * else that of the default language; the key is the upper-cased code.
   */
  function TryGetString(x: XmlProvider, code: string, language: string): (r: Result<Lookup, Error>)
    ensures Upper(language) in x.tables.items ==>
              r == Success(FromOption(Get(x, Upper(language), Upper(code))))
    ensures Upper(language) !in x.tables.items ==> r == FallbackLookup(x, code)
    ensures r.Failure? ==> Upper(language) !in x.tables.items
    ensures r.Success? && r.value.Missing? ==> r.value.outValue.None?
  {
    var language' := Upper(language);
    if language' in x.tables.items then Success(LookupIn(x, language', code))
    else FallbackLookup(x, code)
  }

  /**
   * The lookup behind `TryGetString(code, culture)`, parameterised by the
   * first table key it probes: the culture's name, then its upper-cased
   * two-letter name, then the default language.
   */
  function CultureLookup(x: XmlProvider, code: string, first: string, c: Culture): (r: Result<Lookup, Error>)
    ensures first in x.tables.items ==> r == Success(FromOption(Get(x, first, Upper(code))))
    ensures first !in x.tables.items && Upper(c.twoLetterName) in x.tables.items ==>
              r == Success(FromOption(Get(x, Upper(c.twoLetterName), Upper(code))))
    ensures first !in x.tables.items && Upper(c.twoLetterName) !in x.tables.items ==>
              r == FallbackLookup(x, code)
  {
    if first in x.tables.items then Success(LookupIn(x, first, code))
    else if Upper(c.twoLetterName) in x.tables.items then Success(LookupIn(x, Upper(c.twoLetterName), code))
    else FallbackLookup(x, code)
  }

  /**
   * `TryGetString(code, culture)` as the source writes it: a `null` culture
   * is the thread's, and the first probe uses `culture.Name` exactly as given,
   * although every table key is upper-case.
   */
  function TryGetStringCultureAsWritten(x: XmlProvider, code: string, culture: Option<Culture>, current: Culture): (r: Result<Lookup, Error>)
    ensures var c := culture.GetOr(current);
            c.name in x.tables.items ==> r == Success(FromOption(Get(x, c.name, Upper(code))))
    ensures var c := culture.GetOr(current);
            c.name !in x.tables.items && Upper(c.twoLetterName) in x.tables.items ==>
              r == Success(FromOption(Get(x, Upper(c.twoLetterName), Upper(code))))
    ensures var c := culture.GetOr(current);
            c.name !in x.tables.items && Upper(c.twoLetterName) !in x.tables.items ==>
              r == FallbackLookup(x, code)
  {
    var c := culture.GetOr(current);
    CultureLookup(x, code, c.name, c)
  }

  /**
   * `TryGetString(code, culture)` with the first probe upper-cased, as every
   * table key is and as `GetStrings` already does: the culture's own table,
   * then its language's table, then the default language's table.
   */
  function TryGetStringCulture(x: XmlProvider, code: string, culture: Option<Culture>, current: Culture): (r: Result<Lookup, Error>)
    ensures var c := culture.GetOr(current);
            Upper(c.name) in x.tables.items ==> r == Success(FromOption(Get(x, Upper(c.name), Upper(code))))
    ensures var c := culture.GetOr(current);
            Upper(c.name) !in x.tables.items && Upper(c.twoLetterName) in x.tables.items ==>
              r == Success(FromOption(Get(x, Upper(c.twoLetterName), Upper(code))))
    ensures var c := culture.GetOr(current);
            Upper(c.name) !in x.tables.items && Upper(c.twoLetterName) !in x.tables.items ==>
              r == FallbackLookup(x, code)
  {
    var c := culture.GetOr(current);
    CultureLookup(x, code, Upper(c.name), c)
  }

  /**
   * Enumeration and lookup agree on a culture: every entry `GetStrings`
   * lists for it is what `TryGetString(code, culture)` finds for any code
   * whose canonical form is the entry's key.
   */
  lemma GetStringsAgreesWithTryGetStringCulture(x: XmlProvider, culture: Option<Culture>, current: Culture, i: int, code: string)
    requires Valid(x)
    requires 0 <= i < |GetStrings(x, culture, current)|
    requires Upper(code) == GetStrings(x, culture, current)[i].0[1..]
    ensures TryGetStringCulture(x, code, culture, current) == Success(Found(GetStrings(x, culture, current)[i].1))
  {
  }

  /** A provider with one regional table, "EN-US", holding `K` = "us", and no default language. */
  function RegionalOnly(): XmlProvider {
    XmlProvider(DefaultPrefix, None, OM.OrderedMap(["EN-US"], map["EN-US" := OM.OrderedMap(["K"], map["K" := "us"])]))
  }

  /** `GetStrings` lists the regional table's one entry for the culture en-US. */
  lemma RegionalOnlyLists()
    ensures Valid(RegionalOnly())
    ensures GetStrings(RegionalOnly(), Some(Culture("en-US", "en")), Culture("en-US", "en")) == [("#K", "us")]
  {
    var x := RegionalOnly();
    assert Upper("EN-US") == "EN-US";
    assert Upper("en-US") == "EN-US";
    assert Upper("K") == "K";
    var g := GetStrings(x, Some(Culture("en-US", "en")), Culture("en-US", "en"));
    assert |g| == 1;
    assert g[0].0[1..] == "K";
    assert g[0].0 == [g[0].0[0]] + g[0].0[1..];
    assert OM.Get(x.tables.items["EN-US"], "K") == Some("us");
    assert g[0].0 == "#K" && g[0].1 == "us";
    assert g == [g[0]];
  }

  /**
   * The source's first probe misses a regional table: the table "EN-US"
   * holds an entry that `GetStrings` lists for the culture en-US, yet the
   * lookup asks for "en-US", skips to "EN", and ends at the unset default
   * language.
   */
  lemma TryGetStringCultureAsWrittenMissesRegionalTable()
    ensures Valid(RegionalOnly())
    ensures GetStrings(RegionalOnly(), Some(Culture("en-US", "en")), Culture("en-US", "en")) == [("#K", "us")]
    ensures TryGetStringCultureAsWritten(RegionalOnly(), "k", Some(Culture("en-US", "en")), Culture("en-US", "en")) == Failure(NullReference)
    ensures TryGetStringCulture(RegionalOnly(), "k", Some(Culture("en-US", "en")), Culture("en-US", "en")) == Success(Found("us"))
  {
    RegionalOnlyLists();
    assert Upper("en-US") == "EN-US";
    assert Upper("en") == "EN";
    assert Upper("k") == "K";
  }

  /** The same for `GetString(code, culture)`: as written it throws `NullReferenceException`; corrected it returns the entry. */
  lemma GetStringCultureAsWrittenMissesRegionalTable()
    ensures GetStringCultureAsWritten(RegionalOnly(), "k", Some(Culture("en-US", "en")), Culture("en-US", "en")) == Failure(NullReference)
    ensures GetStringCulture(RegionalOnly(), "k", Some(Culture("en-US", "en")), Culture("en-US", "en")) == Success("us")
  {
    TryGetStringCultureAsWrittenMissesRegionalTable();
  }

  /** `GetString(code, language)`: a miss becomes `StringNotFound(code)`. */
  function GetString(x: XmlProvider, code: string, language: string): (r: Result<string, Error>)
    ensures TryGetString(x, code, language).Failure? ==> r == Failure(TryGetString(x, code, language).error)
    ensures TryGetString(x, code, language) == Success(Missing(None)) ==> r == Failure(StringNotFound(code))
    ensures r.Success? <==> TryGetString(x, code, language).Success? && TryGetString(x, code, language).value.Found?
    ensures r.Success? ==> TryGetString(x, code, language) == Success(Found(r.value))
  {
    match TryGetString(x, code, language)
    case Failure(e) => Failure(e)
    case Success(Found(v)) => Success(v)
    case Success(Missing(_)) => Failure(StringNotFound(code))
  }

  /** `GetString(code, culture)` as the source writes it: the as-written culture lookup, with a miss turned into `StringNotFound(code)`. */
  function GetStringCultureAsWritten(x: XmlProvider, code: string, culture: Option<Culture>, current: Culture): (r: Result<string, Error>)
    ensures r.Success? <==> TryGetStringCultureAsWritten(x, code, culture, current).Success? && TryGetStringCultureAsWritten(x, code, culture, current).value.Found?
    ensures r.Success? ==> TryGetStringCultureAsWritten(x, code, culture, current) == Success(Found(r.value))
    ensures TryGetStringCultureAsWritten(x, code, culture, current).Success? && r.Failure? ==> r.error == StringNotFound(code)
    ensures TryGetStringCultureAsWritten(x, code, culture, current).Failure? ==> r == Failure(TryGetStringCultureAsWritten(x, code, culture, current).error)
  {
    match TryGetStringCultureAsWritten(x, code, culture, current)
    case Failure(e) => Failure(e)
    case Success(Found(v)) => Success(v)
    case Success(Missing(_)) => Failure(StringNotFound(code))
  }

  /** `GetString(code, culture)` over the corrected culture lookup. */
  function GetStringCulture(x: XmlProvider, code: string, culture: Option<Culture>, current: Culture): (r: Result<string, Error>)
    ensures r.Success? <==> TryGetStringCulture(x, code, culture, current).Success? && TryGetStringCulture(x, code, culture, current).value.Found?
    ensures r.Success? ==> TryGetStringCulture(x, code, culture, current) == Success(Found(r.value))
    ensures TryGetStringCulture(x, code, culture, current).Success? && r.Failure? ==> r.error == StringNotFound(code)
    ensures TryGetStringCulture(x, code, culture, current).Failure? ==> r == Failure(TryGetStringCulture(x, code, culture, current).error)
  {
    match TryGetStringCulture(x, code, culture, current)
    case Failure(e) => Failure(e)
    case Success(Found(v)) => Success(v)
    case Success(Missing(_)) => Failure(StringNotFound(code))
  }

  /** The entries of `table` with the provider prefix put in front of each key. */
  function Prefixed(prefix: char, table: Table): (r: seq<(string, string)>)
    requires OM.Valid(table)
    ensures |r| == |table.keys|
    ensures forall i :: 0 <= i < |r| ==> |r[i].0| >= 1 && r[i].0[0] == prefix && r[i].0[1..] == table.keys[i] && OM.Get(table, r[i].0[1..]) == Some(r[i].1)
    ensures forall k :: k in table.items ==> ([prefix] + k, table.items[k]) in r
    ensures forall i, j :: 0 <= i < j < |r| ==> r[i].0 != r[j].0
  {
    var entries := OM.Entries(table);
    var r := seq(|entries|, i requires 0 <= i < |entries| => ([prefix] + entries[i].0, entries[i].1));
    forall i | 0 <= i < |r|
      ensures |r[i].0| >= 1 && r[i].0[0] == prefix && r[i].0[1..] == table.keys[i] && OM.Get(table, r[i].0[1..]) == Some(r[i].1)
    {
      assert r[i] == ([prefix] + entries[i].0, entries[i].1);
      assert r[i].0[1..] == entries[i].0;
    }
    forall k | k in table.items
      ensures ([prefix] + k, table.items[k]) in r
    {
      var i :| 0 <= i < |table.keys| && table.keys[i] == k;
      assert r[i] == ([prefix] + k, table.items[k]);
    }
    r
  }

  /**
   * `GetStrings(culture)`: every entry of the table of the upper-cased
   * culture name, else of the upper-cased two-letter name, with the prefix
   * in front of each key; empty when neither table exists. There is no
   * default-language fallback here.
   */
  function GetStrings(x: XmlProvider, culture: Option<Culture>, current: Culture): (r: seq<(string, string)>)
    requires Valid(x)
    ensures var c := culture.GetOr(current);
            Upper(c.name) in x.tables.items ==> r == Prefixed(x.prefix, x.tables.items[Upper(c.name)])
    ensures var c := culture.GetOr(current);
            Upper(c.name) !in x.tables.items && Upper(c.twoLetterName) in x.tables.items ==>
              r == Prefixed(x.prefix, x.tables.items[Upper(c.twoLetterName)])
    ensures var c := culture.GetOr(current);
            Upper(c.name) !in x.tables.items && Upper(c.twoLetterName) !in x.tables.items ==> r == []
  {
    var c := culture.GetOr(current);
    var language := Upper(c.name);
    if language in x.tables.items then Prefixed(x.prefix, x.tables.items[language])
    else if Upper(c.twoLetterName) in x.tables.items then Prefixed(x.prefix, x.tables.items[Upper(c.twoLetterName)])
    else []
  }

  /**
   * `AddString(code, value, language)`: stores `value` under the upper-cased
   * code in the upper-cased language's table, creating that table at the end
   * of the order when it is missing. Nothing else changes.
   */
  function AddString(x: XmlProvider, code: string, value: string, language: string): (r: XmlProvider)
    ensures Valid(x) ==> Valid(r)
    ensures r.prefix == x.prefix && r.defaultLanguage == x.defaultLanguage
    ensures Upper(language) in r.tables.items
    ensures Get(r, Upper(language), Upper(code)) == Some(value)
    ensures forall l, k :: (l != Upper(language) || k != Upper(code)) ==> Get(r, l, k) == Get(x, l, k)
    ensures forall l :: l in x.tables.items ==> l in r.tables.items
    ensures forall l :: l in r.tables.items ==> l in x.tables.items || l == Upper(language)
    ensures |r.tables.keys| >= |x.tables.keys| && r.tables.keys[..|x.tables.keys|] == x.tables.keys
  {
    var language' := Upper(language);
    UpperIdempotent(language);
    var table := OM.Put(TableOrEmpty(x, language'), Upper(code), value);
    var tables := OM.Put(x.tables, language', table);
    assert tables.items[language'] == table;
    assert forall l :: l != language' ==> OM.Get(tables, l) == OM.Get(x.tables, l);
    assert forall k :: OM.Get(TableOrEmpty(x, language'), k) == Get(x, language', k);
    x.(tables := tables)
  }

  /** `GetSupportedLanguages()`: the language keys of the existing tables, in creation order. */
  function GetSupportedLanguages(x: XmlProvider): (r: seq<string>)
    ensures Valid(x) ==> forall l :: l in r <==> l in x.tables.items
    ensures Valid(x) ==> forall i :: 0 <= i < |r| ==> Upper(r[i]) == r[i]
    ensures Valid(x) ==> forall i, j :: 0 <= i < j < |r| ==> r[i] != r[j]
    // In the order the tables were created.
    ensures r == x.tables.keys
  {
    x.tables.keys
  }

  /** One child element of a localization document: its `key` attribute and its text. */
  datatype XmlEntry = XmlEntry(key: string, text: string)

  /** A parsed localization document: the root's optional `group` attribute and its children, in document order. */
  datatype XmlDocument = XmlDocument(group: Option<string>, entries: seq<XmlEntry>)

  /** The group as it prefixes keys: upper-cased, or empty when the attribute is absent or empty. */
  function GroupPrefix(group: Option<string>): string {
    if group.None? then "" else Upper(group.value)
  }

  /** The table key an element is stored under: `GROUP.KEY`, or just `KEY` without a group. */
  function EntryKey(group: string, key: string): string {
    if group == "" then Upper(key) else group + "." + Upper(key)
  }

  /** True when no later entry of `entries` has the same table key as entry `i`. */
  ghost predicate IsLastFor(group: string, entries: seq<XmlEntry>, i: int)
    requires 0 <= i < |entries|
  {
    forall j :: i < j < |entries| ==> EntryKey(group, entries[j].key) != EntryKey(group, entries[i].key)
  }

  /** Writes the entries into `table` one after the other, in document order. */
  function PutEntries(table: Table, group: string, entries: seq<XmlEntry>): (r: Table)
    ensures OM.Valid(table) ==> OM.Valid(r)
    decreases |entries|
  {
    if |entries| == 0 then table
    else
      var last := entries[|entries| - 1];
      OM.Put(PutEntries(table, group, entries[..|entries| - 1]), EntryKey(group, last.key), last.text)
  }

  /** A key no entry writes keeps the value it had before. */
  lemma {:induction false} PutEntriesFrame(table: Table, group: string, entries: seq<XmlEntry>, k: string)
    requires forall i :: 0 <= i < |entries| ==> EntryKey(group, entries[i].key) != k
    ensures OM.Get(PutEntries(table, group, entries), k) == OM.Get(table, k)
    decreases |entries|
  {
    if |entries| > 0 {
      var front := entries[..|entries| - 1];
      assert forall i :: 0 <= i < |front| ==> front[i] == entries[i];
      PutEntriesFrame(table, group, front, k);
    }
  }

  /** An entry that is last for its key, and not the final entry, stays last without the final entry, whose key differs. */
  lemma IsLastForFront(group: string, entries: seq<XmlEntry>, i: int)
    requires 0 <= i < |entries| - 1 && IsLastFor(group, entries, i)
    ensures IsLastFor(group, entries[..|entries| - 1], i)
    ensures EntryKey(group, entries[|entries| - 1].key) != EntryKey(group, entries[i].key)
  {
    var front := entries[..|entries| - 1];
    forall j | i < j < |front|
      ensures EntryKey(group, front[j].key) != EntryKey(group, front[i].key)
    {
      assert front[j] == entries[j] && front[i] == entries[i];
    }
  }

  /** A key written by some entry holds the text of the last entry with that key. */
  lemma {:induction false} PutEntriesLast(table: Table, group: string, entries: seq<XmlEntry>, i: int)
    requires 0 <= i < |entries| && IsLastFor(group, entries, i)
    ensures OM.Get(PutEntries(table, group, entries), EntryKey(group, entries[i].key)) == Some(entries[i].text)
    decreases |entries|
  {
    var n := |entries| - 1;
    var front := entries[..n];
    if i < n {
      IsLastForFront(group, entries, i);
      PutEntriesLast(table, group, front, i);
      assert front[i] == entries[i];
    }
  }

  /**
   * The merge `LoadFromFile` performs: a key written by some entry holds the
   * text of the last entry with that key, and every other key keeps the
   * value it had before.
   */
  lemma PutEntriesMerge(table: Table, group: string, entries: seq<XmlEntry>)
    ensures forall i :: 0 <= i < |entries| && IsLastFor(group, entries, i) ==>
              OM.Get(PutEntries(table, group, entries), EntryKey(group, entries[i].key)) == Some(entries[i].text)
    ensures forall k :: (forall i :: 0 <= i < |entries| ==> EntryKey(group, entries[i].key) != k) ==>
              OM.Get(PutEntries(table, group, entries), k) == OM.Get(table, k)
  {
    forall i | 0 <= i < |entries| && IsLastFor(group, entries, i)
      ensures OM.Get(PutEntries(table, group, entries), EntryKey(group, entries[i].key)) == Some(entries[i].text)
    {
      PutEntriesLast(table, group, entries, i);
    }
    forall k | forall i :: 0 <= i < |entries| ==> EntryKey(group, entries[i].key) != k
      ensures OM.Get(PutEntries(table, group, entries), k) == OM.Get(table, k)
    {
      PutEntriesFrame(table, group, entries, k);
    }
  }

  /**
   * `LoadFromFile(fileName, language)` over an already parsed document: the
   * upper-cased language's table (created, possibly empty, when missing)
   * receives every entry under its group-qualified key; later entries win,
   * keys the document does not mention keep their values, and no other
   * table changes.
   */
  function LoadFromFile(x: XmlProvider, doc: XmlDocument, language: string): (r: XmlProvider)
    ensures Valid(x) ==> Valid(r)
    ensures r.prefix == x.prefix && r.defaultLanguage == x.defaultLanguage
    ensures Upper(language) in r.tables.items
    ensures forall l :: l in r.tables.items <==> l in x.tables.items || l == Upper(language)
    ensures forall l, k :: l != Upper(language) ==> Get(r, l, k) == Get(x, l, k)
    ensures forall i :: 0 <= i < |doc.entries| && IsLastFor(GroupPrefix(doc.group), doc.entries, i) ==>
              Get(r, Upper(language), EntryKey(GroupPrefix(doc.group), doc.entries[i].key)) == Some(doc.entries[i].text)
    ensures forall k :: (forall i :: 0 <= i < |doc.entries| ==> EntryKey(GroupPrefix(doc.group), doc.entries[i].key) != k) ==>
              Get(r, Upper(language), k) == Get(x, Upper(language), k)
  {
    var language' := Upper(language);
    var group := GroupPrefix(doc.group);
    UpperIdempotent(language);
    var table := TableOrEmpty(x, language');
    PutEntriesMerge(table, group, doc.entries);
    var merged := PutEntries(table, group, doc.entries);
    var tables := OM.Put(x.tables, language', merged);
    assert tables.items[language'] == merged;
    assert forall l :: l != language' ==> OM.Get(tables, l) == OM.Get(x.tables, l);
    assert forall k :: OM.Get(table, k) == Get(x, language', k);
    x.(tables := tables)
  }

  /**
   * The round trip of `AddString`: a lookup whose code and language match
   * the stored ones up to case finds the stored text.
   */
  lemma AddStringRoundTrip(x: XmlProvider, code: string, value: string, language: string, code': string, language': string)
    requires Upper(code') == Upper(code) && Upper(language') == Upper(language)
    ensures TryGetString(AddString(x, code, value, language), code', language') == Success(Found(value))
  {
  }

  /**
   * A table created by `LoadFromFile` answers for its language: looking up a
   * code whose canonical form is an entry's qualified key finds the last text
   * loaded for that key.
   */
  lemma LoadFromFileRoundTrip(x: XmlProvider, doc: XmlDocument, language: string, i: int, code: string, language': string)
    requires 0 <= i < |doc.entries| && IsLastFor(GroupPrefix(doc.group), doc.entries, i)
    requires Upper(code) == EntryKey(GroupPrefix(doc.group), doc.entries[i].key)
    requires Upper(language') == Upper(language)
    ensures TryGetString(LoadFromFile(x, doc, language), code, language') == Success(Found(doc.entries[i].text))
  {
  }
}
