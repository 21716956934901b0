/**
 * The resolution engine: it maps a one-character prefix to a provider,
 * falls back to an optional default provider, and retries a miss once in a
 * complementary language. The process-wide instance of the source is an
 * explicit `Engine` value here, and every mutator returns the new engine.
 */
module LocalizationFactory {
  import opened Wrappers
  import opened Errors
  import opened Cultures
  import opened Records
  import Text
  import P = Providers
  import X = XmlProviders
  import R = ResourceProviders

  /** The first character that marks a code as literal text. */
  const LiteralMarker: char := '!'

  /**
   * `providers` is the prefix registry, `defaultProvider` serves codes with an
   * unregistered prefix, `languagePairs` is scanned in order by
   * `ComplementaryLanguage`, and `defaultLanguage` is its last resort.
   */
  datatype Engine = Engine(
    providers: map<char, P.Provider>,
    defaultProvider: Option<P.Provider>,
    languagePairs: seq<LanguagePair>,
    defaultLanguage: string)

  /** Every registered provider satisfies its own invariant. */
  ghost predicate Valid(e: Engine) {
    && (forall c :: c in e.providers ==> P.Valid(e.providers[c]))
    && (e.defaultProvider.Some? ==> P.Valid(e.defaultProvider.value))
  }

  /** Every slot of the registry holds a provider whose own prefix is that slot's key. */
  ghost predicate RegistryConsistent(e: Engine) {
    forall c :: c in e.providers ==> P.StringPrefix(e.providers[c]) == c
  }

  /**
   * The engine as its constructor builds it: the resource, table and
   * passthrough providers under their default prefixes, the pairs ru→en,
   * en→ru and uk→ru, default language "en", and no default provider.
   */
  function Initial(): (e: Engine)
    ensures Valid(e) && RegistryConsistent(e)
    ensures e.providers.Keys == {R.DefaultPrefix, X.DefaultPrefix, P.PassthroughPrefix}
    ensures e.defaultProvider.None?
    ensures e.providers[R.DefaultPrefix] == P.Resource(R.Empty())
    ensures e.providers[X.DefaultPrefix] == P.Xml(X.Empty())
    ensures e.providers[P.PassthroughPrefix] == P.Passthrough
    ensures e.languagePairs == [LanguagePair("ru", "en"), LanguagePair("en", "ru"), LanguagePair("uk", "ru")]
    ensures e.defaultLanguage == "en"
  {
    Engine(
      map[R.DefaultPrefix := P.Resource(R.Empty()), X.DefaultPrefix := P.Xml(X.Empty()), P.PassthroughPrefix := P.Passthrough],
      None,
      [LanguagePair("ru", "en"), LanguagePair("en", "ru"), LanguagePair("uk", "ru")],
      "en")
  }

  /** Where a code's lookup goes: a registered slot, or the default provider. */
  datatype Slot = Registered(prefix: char) | DefaultSlot

  /** The provider chosen for a code and the key it is asked for. */
  datatype Route = Route(slot: Slot, provider: P.Provider, key: string)

  /**
   * Prefix dispatch: a registered first character selects its provider and
   * is stripped from the key; otherwise the default provider, if any, gets
   * the whole code.
   */
  function Dispatch(e: Engine, code: string): (r: Option<Route>)
    requires |code| > 0
    ensures r.None? <==> code[0] !in e.providers && e.defaultProvider.None?
    ensures r.Some? && r.value.slot.Registered? ==>
              code[0] in e.providers && r.value.slot.prefix == code[0] && r.value.provider == e.providers[code[0]] && r.value.key == code[1..]
    ensures r.Some? && r.value.slot.DefaultSlot? ==>
              code[0] !in e.providers && Some(r.value.provider) == e.defaultProvider && r.value.key == code
  {
    if code[0] in e.providers then Some(Route(Registered(code[0]), e.providers[code[0]], code[1..]))
    else if e.defaultProvider.Some? then Some(Route(DefaultSlot, e.defaultProvider.value, code))
    else None
  }

  /** The position of the first pair whose main language is `language`. */
  function FirstPairIndex(pairs: seq<LanguagePair>, language: string): (r: Option<nat>)
    ensures r.Some? ==> r.value < |pairs| && pairs[r.value].mainLanguage == language
    ensures r.Some? ==> forall j :: 0 <= j < r.value ==> pairs[j].mainLanguage != language
    ensures r.None? ==> forall j :: 0 <= j < |pairs| ==> pairs[j].mainLanguage != language
    decreases |pairs|
  {
    if |pairs| == 0 then None
    else if pairs[0].mainLanguage == language then Some(0)
    else
      match FirstPairIndex(pairs[1..], language)
      case None => None
      case Some(i) => Some(i + 1)
  }

  /**
   * `GetComplementaryLanguage(language)`: the complement of the first pair
   * whose main language is `language`, or the default language when no pair
   * matches; `null` when that candidate is `language` itself.
   */
  function ComplementaryLanguage(e: Engine, language: string): (r: Option<string>)
    ensures r != Some(language)
    ensures forall i ::
              (0 <= i < |e.languagePairs| && e.languagePairs[i].mainLanguage == language
               && (forall j :: 0 <= j < i ==> e.languagePairs[j].mainLanguage != language)) ==>
              r == (if e.languagePairs[i].complementaryLanguage == language then None else Some(e.languagePairs[i].complementaryLanguage))
    ensures (forall i :: 0 <= i < |e.languagePairs| ==> e.languagePairs[i].mainLanguage != language) ==>
              r == (if e.defaultLanguage == language then None else Some(e.defaultLanguage))
  {
    var index := FirstPairIndex(e.languagePairs, language);
    var candidate := if index.Some? then e.languagePairs[index.value].complementaryLanguage else e.defaultLanguage;
    if candidate == language then None else Some(candidate)
  }

  /** The language a lookup uses: the one asked for, else the thread culture's two-letter name. */
  function EffectiveLanguage(language: Option<string>, amb: Ambient): string {
    language.GetOr(amb.current.twoLetterName)
  }

  /** True when a provider lookup threw `UnsupportedCulture`. */
  predicate IsUnsupportedCulture(r: Result<Lookup, Error>) {
    r.Failure? && r.error.UnsupportedCulture?
  }

  /** True when the complementary language of `language` is worth a retry: present and non-empty. */
  predicate HasRetry(e: Engine, language: string) {
    var c := ComplementaryLanguage(e, language);
    c.Some? && |c.value| > 0
  }

  /**
   * The guarded part of `TryGetString`: one lookup, one retry in the
   * complementary language on a miss, and `UnsupportedCulture` from either
   * attempt caught and turned into a miss whose value is the key.
   */
  function LookupWithFallback(e: Engine, p: P.Provider, key: string, language: string, amb: Ambient): (r: Result<Lookup, Error>)
    // An unsupported culture never escapes the engine.
    ensures !IsUnsupportedCulture(r)
    // Any other failure of the first attempt escapes unchanged.
    ensures P.TryGetString(p, key, language, amb).Failure? && !IsUnsupportedCulture(P.TryGetString(p, key, language, amb)) ==>
              r == P.TryGetString(p, key, language, amb)
    // A hit in the requested language is final.
    ensures P.TryGetString(p, key, language, amb).Success? && P.TryGetString(p, key, language, amb).value.Found? ==>
              r == P.TryGetString(p, key, language, amb)
    // Any success is a hit in the requested language or in its complement, and only after a miss in the first.
    ensures r.Success? && r.value.Found? ==>
              || P.TryGetString(p, key, language, amb) == r
              || (&& P.TryGetString(p, key, language, amb).Success? && P.TryGetString(p, key, language, amb).value.Missing?
                  && HasRetry(e, language)
                  && P.TryGetString(p, key, ComplementaryLanguage(e, language).value, amb) == r)
    // The retry happens exactly once: its outcome is final, whatever it is.
    ensures P.TryGetString(p, key, language, amb).Success? && P.TryGetString(p, key, language, amb).value.Missing? && HasRetry(e, language)
              && !IsUnsupportedCulture(P.TryGetString(p, key, ComplementaryLanguage(e, language).value, amb)) ==>
              r == P.TryGetString(p, key, ComplementaryLanguage(e, language).value, amb)
    // Without a usable complement, a miss stays a miss.
    ensures P.TryGetString(p, key, language, amb).Success? && P.TryGetString(p, key, language, amb).value.Missing? && !HasRetry(e, language) ==>
              r == P.TryGetString(p, key, language, amb)
    // The unsupported-culture miss carries the key, whichever attempt raised it.
    ensures IsUnsupportedCulture(P.TryGetString(p, key, language, amb)) ==> r == Success(Missing(Some(key)))
    ensures P.TryGetString(p, key, language, amb).Success? && P.TryGetString(p, key, language, amb).value.Missing? && HasRetry(e, language)
              && IsUnsupportedCulture(P.TryGetString(p, key, ComplementaryLanguage(e, language).value, amb)) ==>
              r == Success(Missing(Some(key)))
  {
    var first := P.TryGetString(p, key, language, amb);
    if IsUnsupportedCulture(first) then Success(Missing(Some(key)))
    else if first.Failure? || first.value.Found? then first
    else
      var complement := ComplementaryLanguage(e, language);
      if complement.None? || |complement.value| == 0 then first
      else
        var second := P.TryGetString(p, key, complement.value, amb);
        if IsUnsupportedCulture(second) then Success(Missing(Some(key))) else second
  }

  /**
   * `TryGetString(code, language)`: a literal code is its own text after the
   * marker; otherwise the dispatched provider is asked, with one fallback
   * hop; with no provider at all the lookup misses with a `null` value.
   * Reading `code[0]` of an empty code throws.
   */
  function TryGetString(e: Engine, code: string, language: Option<string>, amb: Ambient): (r: Result<Lookup, Error>)
    ensures |code| == 0 ==> r == Failure(IndexOutOfRange)
    // The literal marker short-circuits before any provider or language is considered.
    ensures |code| > 0 && code[0] == LiteralMarker ==> r == Success(Found(code[1..]))
    // No provider for the code: a miss whose value is null, not the code.
    ensures |code| > 0 && code[0] != LiteralMarker && code[0] !in e.providers && e.defaultProvider.None? ==>
              r == Success(Missing(None))
    // A registered prefix: that provider, asked for the code without its prefix.
    ensures |code| > 0 && code[0] != LiteralMarker && code[0] in e.providers ==>
              r == LookupWithFallback(e, e.providers[code[0]], code[1..], EffectiveLanguage(language, amb), amb)
    // An unregistered prefix: the default provider, asked for the whole code.
    ensures |code| > 0 && code[0] != LiteralMarker && code[0] !in e.providers && e.defaultProvider.Some? ==>
              r == LookupWithFallback(e, e.defaultProvider.value, code, EffectiveLanguage(language, amb), amb)
    ensures !IsUnsupportedCulture(r)
  {
    if |code| == 0 then Failure(IndexOutOfRange)
    else if code[0] == LiteralMarker then Success(Found(code[1..]))
    else
      match Dispatch(e, code)
      case None => Success(Missing(None))
      case Some(route) => LookupWithFallback(e, route.provider, route.key, EffectiveLanguage(language, amb), amb)
  }

  /** `TryGetString(code, culture)`: the culture's two-letter name, or the thread's when `null`. */
  function TryGetStringCulture(e: Engine, code: string, culture: Option<Culture>, amb: Ambient): (r: Result<Lookup, Error>)
    ensures culture.None? ==> r == TryGetString(e, code, None, amb)
    ensures culture.Some? ==> r == TryGetString(e, code, Some(culture.value.twoLetterName), amb)
  {
    var language := if culture.Some? then Some(culture.value.twoLetterName) else None;
    TryGetString(e, code, language, amb)
  }

  /** `GetString(code, language)`: `TryGetString` made strict. */
  function GetString(e: Engine, code: string, language: Option<string>, amb: Ambient): (r: Result<string, Error>)
    ensures r.Success? <==> TryGetString(e, code, language, amb).Success? && TryGetString(e, code, language, amb).value.Found?
    ensures r.Success? ==> TryGetString(e, code, language, amb) == Success(Found(r.value))
    ensures TryGetString(e, code, language, amb).Success? && r.Failure? ==> r.error == StringNotFound(code)
    ensures TryGetString(e, code, language, amb).Failure? ==> r == Failure(TryGetString(e, code, language, amb).error)
  {
    match TryGetString(e, code, language, amb)
    case Failure(err) => Failure(err)
    case Success(Found(v)) => Success(v)
    case Success(Missing(_)) => Failure(StringNotFound(code))
  }

  /** `GetString(code, culture)`. */
  function GetStringCulture(e: Engine, code: string, culture: Option<Culture>, amb: Ambient): (r: Result<string, Error>)
    ensures r == GetString(e, code, if culture.Some? then Some(culture.value.twoLetterName) else None, amb)
  {
    GetString(e, code, if culture.Some? then Some(culture.value.twoLetterName) else None, amb)
  }

  /** True when a provider's eager lookup either succeeded or threw only `StringNotFound`. */
  predicate Tolerated(g: Result<string, Error>) {
    g.Success? || g.error.StringNotFound?
  }

  /** The text recorded for one language: the provider's text, or the key on `StringNotFound`. */
  function TextOrKey(g: Result<string, Error>, key: string): string {
    if g.Success? then g.value else key
  }

  /**
   * The loop of `TryGetStringValues`: one `GetString` per language, in order,
   * with `StringNotFound` caught; any other exception ends the loop.
   */
  function CollectValues(p: P.Provider, key: string, languages: seq<string>, amb: Ambient): (r: Result<(bool, seq<LocalizedStringValue>), Error>)
    ensures r.Success? <==> forall i :: 0 <= i < |languages| ==> Tolerated(P.GetString(p, key, languages[i], amb))
    ensures r.Success? ==> |r.value.1| == |languages|
    ensures r.Success? ==> forall i :: 0 <= i < |languages| ==>
              r.value.1[i] == LocalizedStringValue(languages[i], TextOrKey(P.GetString(p, key, languages[i], amb), key))
    ensures r.Success? ==> (r.value.0 <==> forall i :: 0 <= i < |languages| ==> P.GetString(p, key, languages[i], amb).Success?)
    ensures r.Failure? ==>
              exists i :: (&& 0 <= i < |languages|
                           && P.GetString(p, key, languages[i], amb) == Failure(r.error)
                           && !Tolerated(P.GetString(p, key, languages[i], amb))
                           && forall j :: 0 <= j < i ==> Tolerated(P.GetString(p, key, languages[j], amb)))
    decreases |languages|
  {
    if |languages| == 0 then Success((true, []))
    else
      var head := P.GetString(p, key, languages[0], amb);
      if !Tolerated(head) then Failure(head.error)
      else
        match CollectValues(p, key, languages[1..], amb)
        case Failure(err) =>
          var i :| 0 <= i < |languages[1..]| && P.GetString(p, key, languages[1..][i], amb) == Failure(err)
                   && !Tolerated(P.GetString(p, key, languages[1..][i], amb))
                   && forall j :: 0 <= j < i ==> Tolerated(P.GetString(p, key, languages[1..][j], amb));
          assert languages[i + 1] == languages[1..][i];
          assert forall j :: 1 <= j < i + 1 ==> languages[j] == languages[1..][j - 1];
          Failure(err)
        case Success((ok, values)) =>
          var all := [LocalizedStringValue(languages[0], TextOrKey(head, key))] + values;
          assert forall i :: 1 <= i < |languages| ==> languages[i] == languages[1..][i - 1] && all[i] == values[i - 1];
          Success((head.Success? && ok, all))
  }

  /**
   * `TryGetStringValues(code)`: one entry per language the dispatched
   * provider supports, in its order, read with the provider's own
   * `GetString` and no complementary fallback; a miss records the key and
   * clears the flag. No provider throws `ProviderNotFound`.
   */
  function TryGetStringValues(e: Engine, code: string, amb: Ambient): (r: Result<(bool, seq<LocalizedStringValue>), Error>)
    ensures |code| == 0 ==> r == Failure(IndexOutOfRange)
    ensures |code| > 0 && Dispatch(e, code).None? ==> r == Failure(ProviderNotFound(code[0]))
    ensures |code| > 0 && Dispatch(e, code).Some? ==>
              var route := Dispatch(e, code).value;
              r == CollectValues(route.provider, route.key, P.GetSupportedLanguages(route.provider), amb)
  {
    if |code| == 0 then Failure(IndexOutOfRange)
    else
      match Dispatch(e, code)
      case None => Failure(ProviderNotFound(code[0]))
      case Some(route) => CollectValues(route.provider, route.key, P.GetSupportedLanguages(route.provider), amb)
  }

  /** `GetStringValues(code)`: the values when every language resolved, an empty sequence when any missed. */
  function GetStringValues(e: Engine, code: string, amb: Ambient): (r: Result<seq<LocalizedStringValue>, Error>)
    ensures r.Failure? <==> TryGetStringValues(e, code, amb).Failure?
    ensures TryGetStringValues(e, code, amb).Failure? ==> r == Failure(TryGetStringValues(e, code, amb).error)
    ensures r.Success? && !TryGetStringValues(e, code, amb).value.0 ==> r.value == []
    ensures r.Success? && TryGetStringValues(e, code, amb).value.0 ==> r.value == TryGetStringValues(e, code, amb).value.1
  {
    match TryGetStringValues(e, code, amb)
    case Failure(err) => Failure(err)
    case Success((ok, values)) => if ok then Success(values) else Success([])
  }

  /** The engine with the provider in `slot` replaced. */
  function Store(e: Engine, slot: Slot, p: P.Provider): Engine {
    match slot
    case Registered(c) => e.(providers := e.providers[c := p])
    case DefaultSlot => e.(defaultProvider := Some(p))
  }

  /**
   * `AddStringValues(code, values)` as the source writes it: the provider is
   * chosen as in `TryGetString` (`StringNotFound(code)` when there is none),
   * but the first character is stripped from the key in every case, even
   * when the default provider takes the whole code.
   */
  function AddStringValuesAsWritten(e: Engine, code: string, values: seq<LocalizedStringValue>): (r: Result<Engine, Error>)
    ensures |code| == 0 ==> r == Failure(IndexOutOfRange)
    ensures |code| > 0 && Dispatch(e, code).None? ==> r == Failure(StringNotFound(code))
    ensures |code| > 0 && Dispatch(e, code).Some? ==>
              var route := Dispatch(e, code).value;
              && (r.Success? <==> P.AddStrings(route.provider, code[1..], values).Success?)
              && (r.Success? ==> r.value == Store(e, route.slot, P.AddStrings(route.provider, code[1..], values).value))
  {
    if |code| == 0 then Failure(IndexOutOfRange)
    else
      match Dispatch(e, code)
      case None => Failure(StringNotFound(code))
      case Some(route) =>
        var p :- P.AddStrings(route.provider, code[1..], values);
        Success(Store(e, route.slot, p))
  }

  /**
   * `AddStringValues(code, values)` with the key chosen exactly as lookups
   * choose it: without the prefix for a registered provider, the whole code
   * for the default provider. Each value is added in order; a provider that
   * cannot add strings throws `NotSupported` and nothing changes.
   */
  function AddStringValues(e: Engine, code: string, values: seq<LocalizedStringValue>): (r: Result<Engine, Error>)
    ensures |code| == 0 ==> r == Failure(IndexOutOfRange)
    ensures |code| > 0 && Dispatch(e, code).None? ==> r == Failure(StringNotFound(code))
    ensures |code| > 0 && Dispatch(e, code).Some? ==>
              var route := Dispatch(e, code).value;
              && (r.Success? <==> P.AddStrings(route.provider, route.key, values).Success?)
              && (r.Success? ==> r.value == Store(e, route.slot, P.AddStrings(route.provider, route.key, values).value))
    ensures Valid(e) && r.Success? ==> Valid(r.value)
    ensures RegistryConsistent(e) && r.Success? ==> RegistryConsistent(r.value)
    ensures r.Success? ==> r.value.providers.Keys == e.providers.Keys
  {
    if |code| == 0 then Failure(IndexOutOfRange)
    else
      match Dispatch(e, code)
      case None => Failure(StringNotFound(code))
      case Some(route) =>
        var p :- P.AddStrings(route.provider, route.key, values);
        Success(Store(e, route.slot, p))
  }

  /**
   * The round trip of `AddStringValues` on a table provider, registered or
   * default: looking the same code up in a language given among the values,
   * up to case, finds the last value given for that language.
   */
  lemma AddStringValuesRoundTrip(e: Engine, code: string, values: seq<LocalizedStringValue>, i: int, language: string, amb: Ambient)
    requires |code| > 0 && code[0] != LiteralMarker
    requires Dispatch(e, code).Some? && Dispatch(e, code).value.provider.Xml?
    requires 0 <= i < |values| && P.IsLastForLanguage(values, i) && Text.Upper(language) == Text.Upper(values[i].language)
    ensures AddStringValues(e, code, values).Success?
    ensures TryGetString(AddStringValues(e, code, values).value, code, Some(language), amb) == Success(Found(values[i].value))
  {
    var route := Dispatch(e, code).value;
    P.AddStringsMerge(route.provider, route.key, values);
    var p' := P.AddStrings(route.provider, route.key, values).value;
    var e' := AddStringValues(e, code, values).value;
    assert Dispatch(e', code) == Some(Route(route.slot, p', route.key));
    assert P.TryGetString(p', route.key, language, amb) == Success(Found(values[i].value));
  }

  /** The table provider used as the default provider below: empty, with default language "en". */
  function EnglishDefault(): X.XmlProvider {
    X.Empty().(defaultLanguage := Some("en"))
  }

  /** The initial engine with `EnglishDefault` as its default provider. */
  function WithEnglishDefault(): Engine {
    Initial().(defaultProvider := Some(P.Xml(EnglishDefault())))
  }

  /** After storing "v" under `K` in English, the code `xk` is missing in English and, through the fallback, in Russian. */
  lemma StrippedKeyMisses()
    ensures var x' := X.AddString(EnglishDefault(), "k", "v", "en");
            && X.TryGetString(x', "xk", "en") == Success(Missing(None))
            && X.TryGetString(x', "xk", "ru") == Success(Missing(None))
  {
    var x' := X.AddString(EnglishDefault(), "k", "v", "en");
    assert Text.Upper("en") == "EN";
    assert Text.Upper("ru") == "RU";
    assert Text.Upper("k") == "K";
    assert Text.Upper("xk") == "XK";
    assert X.Get(x', "EN", "XK") == None;
    assert "RU" !in x'.tables.items;
  }

  /** The engine the source's `AddStringValues` leaves behind: the default provider holds "v" under the stripped key. */
  lemma StrippedKeyStored()
    ensures AddStringValuesAsWritten(WithEnglishDefault(), "xk", [LocalizedStringValue("en", "v")])
              == Success(Store(WithEnglishDefault(), DefaultSlot, P.Xml(X.AddString(EnglishDefault(), "k", "v", "en"))))
  {
    P.AddStringsOne(P.Xml(EnglishDefault()), "k", LocalizedStringValue("en", "v"));
    assert "xk"[1..] == "k";
    assert Dispatch(WithEnglishDefault(), "xk") == Some(Route(DefaultSlot, P.Xml(EnglishDefault()), "xk"));
  }

  /** In that engine, the default provider misses `xk` in English and again in its complement. */
  lemma StrippedKeyFallbackMisses(x': X.XmlProvider, e': Engine, amb: Ambient)
    requires x' == X.AddString(EnglishDefault(), "k", "v", "en")
    requires e' == Store(WithEnglishDefault(), DefaultSlot, P.Xml(x'))
    ensures LookupWithFallback(e', P.Xml(x'), "xk", "en", amb) == Success(Missing(None))
  {
    StrippedKeyMisses();
    assert e'.languagePairs[1] == LanguagePair("en", "ru") && e'.languagePairs[0].mainLanguage != "en";
    assert ComplementaryLanguage(e', "en") == Some("ru");
  }

  /** A code with an unregistered, non-literal first character is the default provider's, with the whole code as the key. */
  lemma DefaultRouteLookup(e: Engine, code: string, language: string, amb: Ambient)
    requires |code| > 0 && code[0] != LiteralMarker && code[0] !in e.providers && e.defaultProvider.Some?
    ensures TryGetString(e, code, Some(language), amb) == LookupWithFallback(e, e.defaultProvider.value, code, language, amb)
  {
  }

  /** A code with a registered, non-literal first character is that provider's, with the rest of the code as the key. */
  lemma RegisteredRouteLookup(e: Engine, code: string, language: string, amb: Ambient)
    requires |code| > 0 && code[0] != LiteralMarker && code[0] in e.providers
    ensures TryGetString(e, code, Some(language), amb) == LookupWithFallback(e, e.providers[code[0]], code[1..], language, amb)
  {
  }

  /** In that engine, looking up the whole code misses in English and in its complement. */
  lemma StrippedKeyLookupMisses(x': X.XmlProvider, e': Engine, amb: Ambient)
    requires x' == X.AddString(EnglishDefault(), "k", "v", "en")
    requires e' == Store(WithEnglishDefault(), DefaultSlot, P.Xml(x'))
    ensures TryGetString(e', "xk", Some("en"), amb) == Success(Missing(None))
  {
    StrippedKeyFallbackMisses(x', e', amb);
    assert e'.providers.Keys == {R.DefaultPrefix, X.DefaultPrefix, P.PassthroughPrefix};
    DefaultRouteLookup(e', "xk", "en", amb);
  }

  /**
   * The source's `AddStringValues` loses what it stores through the default
   * provider: the value lands under the code without its first character,
   * while every lookup asks the default provider for the whole code. The
   * corrected `AddStringValues` finds it.
   */
  lemma AddStringValuesAsWrittenMissesDefaultProvider(e: Engine, values: seq<LocalizedStringValue>, amb: Ambient)
    requires e == WithEnglishDefault() && values == [LocalizedStringValue("en", "v")]
    ensures AddStringValuesAsWritten(e, "xk", values).Success?
    ensures TryGetString(AddStringValuesAsWritten(e, "xk", values).value, "xk", Some("en"), amb) == Success(Missing(None))
    ensures TryGetString(AddStringValues(e, "xk", values).value, "xk", Some("en"), amb) == Success(Found("v"))
  {
    var x' := X.AddString(EnglishDefault(), "k", "v", "en");
    StrippedKeyStored();
    StrippedKeyLookupMisses(x', Store(e, DefaultSlot, P.Xml(x')), amb);
    AddStringValuesRoundTrip(e, "xk", values, 0, "en", amb);
  }

  /** `RegisterProvider(provider)`: the provider takes the slot of its own prefix, replacing any earlier one. */
  function RegisterProvider(e: Engine, p: P.Provider): (r: Engine)
    ensures r.providers.Keys == e.providers.Keys + {P.StringPrefix(p)}
    ensures r.defaultProvider == e.defaultProvider && r.languagePairs == e.languagePairs && r.defaultLanguage == e.defaultLanguage
    ensures Valid(e) && P.Valid(p) ==> Valid(r)
    ensures RegistryConsistent(e) ==> RegistryConsistent(r)
  {
    e.(providers := e.providers[P.StringPrefix(p) := p])
  }

  /** `GetProvider(prefix)`: the registered provider, or `ProviderNotFound(prefix)`. */
  function GetProvider(e: Engine, prefix: char): (r: Result<P.Provider, Error>)
    ensures r.Success? <==> prefix in e.providers
    ensures r.Success? ==> r.value == e.providers[prefix]
    ensures r.Failure? ==> r.error == ProviderNotFound(prefix)
  {
    if prefix in e.providers then Success(e.providers[prefix]) else Failure(ProviderNotFound(prefix))
  }

  /**
   * Registration is an upsert: afterwards the provider is found under its
   * own prefix, and every other prefix answers as before.
   */
  lemma RegisterThenGet(e: Engine, p: P.Provider, prefix: char)
    ensures GetProvider(RegisterProvider(e, p), P.StringPrefix(p)) == Success(p)
    ensures prefix != P.StringPrefix(p) ==> GetProvider(RegisterProvider(e, p), prefix) == GetProvider(e, prefix)
  {
  }
}
