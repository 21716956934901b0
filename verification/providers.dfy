/**
 * The capability set every localization provider offers, over the three
 * built-in variants: the passthrough provider, the file-loaded table
 * provider and the resource-backed provider.
 */
module Providers {
  import opened Wrappers
  import opened Errors
  import opened Cultures
  import opened Records
  import X = XmlProviders
  import R = ResourceProviders
  import Text

  datatype Provider =
      /** Returns every code as its own text; its prefix is fixed. */
    | Passthrough
    | Xml(xml: X.XmlProvider)
    | Resource(res: R.ResourceProvider)

  /** The passthrough provider's prefix, which cannot be changed. */
  const PassthroughPrefix: char := '!'

  /** The languages the passthrough provider reports, in this order. */
  const PassthroughLanguages: seq<string> := ["ru", "en"]

  /** The provider invariant: only the table provider has one. */
  ghost predicate Valid(p: Provider) {
    p.Xml? ==> X.Valid(p.xml)
  }

  /**
   * `StringPrefix` (getter): the passthrough provider always answers to `!`;
   * the other two start from their default prefix and report the last one set.
   */
  function StringPrefix(p: Provider): (r: char)
    ensures p.Passthrough? ==> r == PassthroughPrefix
    ensures p == Xml(X.Empty()) ==> r == X.DefaultPrefix
    ensures p == Resource(R.Empty()) ==> r == R.DefaultPrefix
  {
    match p
    case Passthrough => PassthroughPrefix
    case Xml(x) => x.prefix
    case Resource(rp) => rp.prefix
  }

  /** `StringPrefix` (setter): refused by the passthrough provider, a plain update otherwise. */
  function SetStringPrefix(p: Provider, prefix: char): (r: Result<Provider, Error>)
    ensures p.Passthrough? <==> r.Failure?
    ensures r.Failure? ==> r.error == NotSupported
    ensures r.Success? ==> StringPrefix(r.value) == prefix
    ensures r.Success? ==> forall code, language, amb :: TryGetString(r.value, code, language, amb) == TryGetString(p, code, language, amb)
  {
    match p
    case Passthrough => Failure(NotSupported)
    case Xml(x) => Success(Xml(x.(prefix := prefix)))
    case Resource(rp) => Success(Resource(rp.(prefix := prefix)))
  }

  /** `TryGetString(code, language)`. */
  function TryGetString(p: Provider, code: string, language: string, amb: Ambient): (r: Result<Lookup, Error>)
    ensures p.Passthrough? ==> r == Success(Found(code))
  {
    match p
    case Passthrough => Success(Found(code))
    case Xml(x) => X.TryGetString(x, code, language)
    case Resource(rp) => R.TryGetString(rp, code, language, amb)
  }

  /** `GetString(code, language)`. */
  function GetString(p: Provider, code: string, language: string, amb: Ambient): (r: Result<string, Error>)
    ensures p.Passthrough? ==> r == Success(code)
  {
    match p
    case Passthrough => Success(code)
    case Xml(x) => X.GetString(x, code, language)
    case Resource(rp) => R.GetString(rp, code, language, amb)
  }

  /**
   * For every provider the eager lookup is the try-lookup made strict: it
   * returns the found text, throws `StringNotFound(code)` on a miss, and
   * lets every other exception through.
   */
  lemma GetStringAgreesWithTryGetString(p: Provider, code: string, language: string, amb: Ambient)
    ensures var t := TryGetString(p, code, language, amb);
            var g := GetString(p, code, language, amb);
            && (g.Success? <==> t.Success? && t.value.Found?)
            && (g.Success? ==> t == Success(Found(g.value)))
            && (t.Success? && t.value.Missing? ==> g == Failure(StringNotFound(code)))
            && (t.Failure? ==> g == Failure(t.error))
  {
    if p.Resource? {
      R.GetStringAgreesWithTryGetString(p.res, code, amb.cultureOf(language), amb.current);
    }
  }

  /**
   * `TryGetString(code, culture)`; a `null` culture is the thread's. The
   * table provider probes the culture's name exactly as given, as the source
   * does, so a regional table is never found by its name.
   */
  function TryGetStringCulture(p: Provider, code: string, culture: Option<Culture>, amb: Ambient): (r: Result<Lookup, Error>)
    ensures p.Passthrough? ==> r == Success(Found(code))
    ensures p.Resource? ==> r.Success?
    ensures p.Xml? ==> var c := culture.GetOr(amb.current);
              c.name in p.xml.tables.items ==> r == Success(FromOption(X.Get(p.xml, c.name, Text.Upper(code))))
    ensures p.Xml? ==> var c := culture.GetOr(amb.current);
              c.name !in p.xml.tables.items && Text.Upper(c.twoLetterName) in p.xml.tables.items ==>
                r == Success(FromOption(X.Get(p.xml, Text.Upper(c.twoLetterName), Text.Upper(code))))
    ensures p.Xml? ==> var c := culture.GetOr(amb.current);
              c.name !in p.xml.tables.items && Text.Upper(c.twoLetterName) !in p.xml.tables.items ==>
                r == X.FallbackLookup(p.xml, code)
  {
    match p
    case Passthrough => Success(Found(code))
    case Xml(x) => X.TryGetStringCultureAsWritten(x, code, culture, amb.current)
    case Resource(rp) => Success(R.TryGetStringCulture(rp, code, culture, amb.current))
  }

  /** `GetString(code, culture)`; a `null` culture is the thread's. */
  function GetStringCulture(p: Provider, code: string, culture: Option<Culture>, amb: Ambient): (r: Result<string, Error>)
    ensures p.Passthrough? ==> r == Success(code)
    ensures r.Success? <==> TryGetStringCulture(p, code, culture, amb).Success? && TryGetStringCulture(p, code, culture, amb).value.Found?
    ensures r.Success? ==> TryGetStringCulture(p, code, culture, amb) == Success(Found(r.value))
  {
    match p
    case Passthrough => Success(code)
    case Xml(x) => X.GetStringCultureAsWritten(x, code, culture, amb.current)
    case Resource(rp) =>
      R.GetStringAgreesWithTryGetString(rp, code, culture, amb.current);
      R.GetStringCulture(rp, code, culture, amb.current)
  }

  /** `GetStrings(culture)`: only the table provider can enumerate its entries. */
  function GetStrings(p: Provider, culture: Option<Culture>, amb: Ambient): (r: Result<seq<(string, string)>, Error>)
    requires Valid(p)
    ensures r.Failure? <==> !p.Xml?
    ensures r.Failure? ==> r.error == NotSupported
    ensures r.Success? ==> forall i :: 0 <= i < |r.value| ==> |r.value[i].0| >= 1 && r.value[i].0[0] == StringPrefix(p)
  {
    match p
    case Xml(x) => Success(X.GetStrings(x, culture, amb.current))
    case _ => Failure(NotSupported)
  }

  /** `AddString(code, value, language)`: only the table provider accepts new strings. */
  function AddString(p: Provider, code: string, value: string, language: string): (r: Result<Provider, Error>)
    ensures r.Failure? <==> !p.Xml?
    ensures r.Failure? ==> r.error == NotSupported
    ensures r.Success? ==> r.value == Xml(X.AddString(p.xml, code, value, language))
  {
    match p
    case Xml(x) => Success(Xml(X.AddString(x, code, value, language)))
    case _ => Failure(NotSupported)
  }

  /** `GetSupportedLanguages()`. */
  function GetSupportedLanguages(p: Provider): (r: seq<string>)
    ensures p.Passthrough? ==> r == PassthroughLanguages
    ensures Valid(p) ==> forall i, j :: 0 <= i < j < |r| ==> r[i] != r[j]
  {
    match p
    case Passthrough => PassthroughLanguages
    case Xml(x) => X.GetSupportedLanguages(x)
    case Resource(rp) => R.GetSupportedLanguages(rp)
  }

  /**
   * Calls `AddString(code, v.value, v.language)` for each value in order,
   * stopping at the first exception.
   */
  function AddStrings(p: Provider, code: string, values: seq<LocalizedStringValue>): (r: Result<Provider, Error>)
    ensures |values| == 0 ==> r.Success? && r.value == p
    ensures |values| > 0 && !p.Xml? ==> r == Failure(NotSupported)
    ensures p.Xml? ==> r.Success? && r.value.Xml?
    ensures p.Xml? && r.Success? ==> StringPrefix(r.value) == StringPrefix(p) && r.value.xml.defaultLanguage == p.xml.defaultLanguage
    ensures Valid(p) && r.Success? ==> Valid(r.value)
    decreases |values|
  {
    if |values| == 0 then Success(p)
    else
      var p' :- AddString(p, code, values[0].value, values[0].language);
      AddStrings(p', code, values[1..])
  }

  /** With a single value the loop is one `AddString`. */
  lemma AddStringsOne(p: Provider, code: string, v: LocalizedStringValue)
    ensures AddStrings(p, code, [v]) == AddString(p, code, v.value, v.language)
  {
    assert [v][1..] == [];
  }

  /** True when no later value in `values` names the same language as value `i`, up to case. */
  ghost predicate IsLastForLanguage(values: seq<LocalizedStringValue>, i: int)
    requires 0 <= i < |values|
  {
    forall j :: i < j < |values| ==> Text.Upper(values[j].language) != Text.Upper(values[i].language)
  }

  /** On the table provider, a (language, key) pair that no value writes keeps its value through the loop. */
  lemma {:induction false} AddStringsFrame(p: Provider, code: string, values: seq<LocalizedStringValue>, l: string, k: string)
    requires p.Xml?
    requires k != Text.Upper(code) || forall i :: 0 <= i < |values| ==> Text.Upper(values[i].language) != l
    ensures X.Get(AddStrings(p, code, values).value.xml, l, k) == X.Get(p.xml, l, k)
    decreases |values|
  {
    if |values| > 0 {
      var p' := AddString(p, code, values[0].value, values[0].language).value;
      assert forall j :: 0 <= j < |values[1..]| ==> values[1..][j] == values[j + 1];
      AddStringsFrame(p', code, values[1..], l, k);
    }
  }

  /** On the table provider, the first value stays under the code when no later value names its language. */
  lemma AddStringsFirstStays(p: Provider, code: string, values: seq<LocalizedStringValue>)
    requires p.Xml? && |values| > 0 && IsLastForLanguage(values, 0)
    ensures X.Get(AddStrings(p, code, values).value.xml, Text.Upper(values[0].language), Text.Upper(code)) == Some(values[0].value)
  {
    var p' := AddString(p, code, values[0].value, values[0].language).value;
    var rest := values[1..];
    forall j | 0 <= j < |rest|
      ensures Text.Upper(rest[j].language) != Text.Upper(values[0].language)
    {
      assert rest[j] == values[j + 1];
    }
    AddStringsFrame(p', code, rest, Text.Upper(values[0].language), Text.Upper(code));
  }

  /** On the table provider, the last value given for a language is the one that stays under the code. */
  lemma {:induction false} AddStringsLastPerLanguage(p: Provider, code: string, values: seq<LocalizedStringValue>, i: int)
    requires p.Xml? && 0 <= i < |values| && IsLastForLanguage(values, i)
    ensures X.Get(AddStrings(p, code, values).value.xml, Text.Upper(values[i].language), Text.Upper(code)) == Some(values[i].value)
    decreases |values|
  {
    if i == 0 {
      AddStringsFirstStays(p, code, values);
    } else {
      var p' := AddString(p, code, values[0].value, values[0].language).value;
      var rest := values[1..];
      assert rest[i - 1] == values[i];
      forall j | i - 1 < j < |rest|
        ensures Text.Upper(rest[j].language) != Text.Upper(rest[i - 1].language)
      {
        assert rest[j] == values[j + 1];
      }
      AddStringsLastPerLanguage(p', code, rest, i - 1);
    }
  }

  /**
   * The merge the loop performs on the table provider: under the code, each
   * language holds the last value given for it, and every (language, key)
   * pair the values do not write keeps what it held.
   */
  lemma AddStringsMerge(p: Provider, code: string, values: seq<LocalizedStringValue>)
    requires p.Xml?
    ensures forall i :: 0 <= i < |values| && IsLastForLanguage(values, i) ==>
              X.Get(AddStrings(p, code, values).value.xml, Text.Upper(values[i].language), Text.Upper(code)) == Some(values[i].value)
    ensures forall l, k :: (k != Text.Upper(code) || forall i :: 0 <= i < |values| ==> Text.Upper(values[i].language) != l) ==>
              X.Get(AddStrings(p, code, values).value.xml, l, k) == X.Get(p.xml, l, k)
  {
    forall i | 0 <= i < |values| && IsLastForLanguage(values, i)
      ensures X.Get(AddStrings(p, code, values).value.xml, Text.Upper(values[i].language), Text.Upper(code)) == Some(values[i].value)
    {
      AddStringsLastPerLanguage(p, code, values, i);
    }
    forall l, k | k != Text.Upper(code) || forall i :: 0 <= i < |values| ==> Text.Upper(values[i].language) != l
      ensures X.Get(AddStrings(p, code, values).value.xml, l, k) == X.Get(p.xml, l, k)
    {
      AddStringsFrame(p, code, values, l, k);
    }
  }
}
