/**
 * The read-only provider backed by resource managers: a code `group.name`
 * selects the manager registered for `group` and asks it for `name`.
 */
module ResourceProviders {
  import opened Wrappers
  import opened Errors
  import opened Cultures
  import opened Records
  import opened Text

  /** The prefix the provider answers to until it is changed. */
  const DefaultPrefix: char := '%'

  /** What `ResourceManager.GetString(name, culture)` does: throw, or return a possibly `null` string. */
  datatype Fetch = Fault | Fetched(text: Option<string>)

  /** What `ResourceManager.GetResourceSet(culture, true, false)` does for one culture. */
  datatype Probe =
      /** It throws `CultureNotFoundException`. */
    | UnknownCulture
      /** It returns `null`: no resources for that culture. */
    | NoResourceSet
      /** It returns a resource set. */
    | ResourceSetFound

  /** A resource manager, seen only through the two calls the provider makes. */
  datatype ResourceManager = ResourceManager(getString: (string, Culture) -> Fetch, getResourceSet: Culture -> Probe)

  /**
   * `prefix` is `StringPrefix`; `managers` maps a group to its manager;
   * `supported` is the list of languages recorded by `AddResourceManager`,
   * duplicates included.
   */
  datatype ResourceProvider = ResourceProvider(prefix: char, managers: map<string, ResourceManager>, supported: seq<string>)

  /** The provider as its constructor leaves it. */
  function Empty(): (rp: ResourceProvider)
    ensures rp.prefix == DefaultPrefix && rp.managers == map[]
    ensures GetSupportedLanguages(rp) == []
  {
    ResourceProvider(DefaultPrefix, map[], [])
  }

  /** True when `code` names a group with a registered manager, as `group.name` with exactly one dot. */
  predicate Addresses(rp: ResourceProvider, code: string) {
    var parts := Split(code, '.');
    |parts| == 2 && parts[0] in rp.managers
  }

  /** The manager's answer for the name part of an addressable code. */
  function FetchFor(rp: ResourceProvider, code: string, c: Culture): Fetch
    requires Addresses(rp, code)
  {
    var parts := Split(code, '.');
    rp.managers[parts[0]].getString(parts[1], c)
  }

  /** True when the manager produced usable text: neither a fault, nor `null`, nor empty. */
  predicate Usable(f: Fetch) {
    f.Fetched? && f.text.Some? && |f.text.value| > 0
  }

  /**
   * `TryGetString(code, culture)`: a `null` culture is the thread's; the code
   * must split on '.' into exactly a registered group and a name; a manager
   * fault, a `null` and an empty answer are all misses with a `null` value.
   */
  function TryGetStringCulture(rp: ResourceProvider, code: string, culture: Option<Culture>, current: Culture): (r: Lookup)
    ensures r.Found? <==> Addresses(rp, code) && Usable(FetchFor(rp, code, culture.GetOr(current)))
    ensures r.Found? ==> r.value == FetchFor(rp, code, culture.GetOr(current)).text.value
    ensures r.Missing? ==> r.outValue.None?
  {
    var c := culture.GetOr(current);
    var groupAndName := Split(code, '.');
    if |groupAndName| == 2 && groupAndName[0] in rp.managers then
      match rp.managers[groupAndName[0]].getString(groupAndName[1], c)
      case Fault => Missing(None)
      case Fetched(text) =>
        if !IsNullOrEmpty(text) then Found(text.value) else Missing(None)
    else
      Missing(None)
  }

  /**
   * `GetString(code, culture)`, written separately in the source: a wrong
   * shape, an unknown group, a fault and a `null` or empty answer all throw
   * `StringNotFound(code)`.
   */
  function GetStringCulture(rp: ResourceProvider, code: string, culture: Option<Culture>, current: Culture): (r: Result<string, Error>)
    ensures r.Failure? ==> r.error == StringNotFound(code)
  {
    var groupAndName := Split(code, '.');
    var c := culture.GetOr(current);
    if |groupAndName| != 2 then Failure(StringNotFound(code))
    else if groupAndName[0] !in rp.managers then Failure(StringNotFound(code))
    else
      var manager := rp.managers[groupAndName[0]];
      var result := match manager.getString(groupAndName[1], c)
        case Fault => None
        case Fetched(text) => text;
      if IsNullOrEmpty(result) then Failure(StringNotFound(code)) else Success(result.value)
  }

  /**
   * The two culture lookups agree: `GetString` throws exactly when
   * `TryGetString` misses, and otherwise returns the same text.
   */
  lemma GetStringAgreesWithTryGetString(rp: ResourceProvider, code: string, culture: Option<Culture>, current: Culture)
    ensures GetStringCulture(rp, code, culture, current).Success? <==> TryGetStringCulture(rp, code, culture, current).Found?
    ensures GetStringCulture(rp, code, culture, current).Success? ==>
              TryGetStringCulture(rp, code, culture, current) == Found(GetStringCulture(rp, code, culture, current).value)
  {
  }

  /**
   * `TryGetString(code, language)`: the language goes through
   * `new CultureInfo(language)`, whose `CultureNotFoundException` is not caught.
   */
  function TryGetString(rp: ResourceProvider, code: string, language: string, amb: Ambient): (r: Result<Lookup, Error>)
    ensures amb.cultureOf(language).None? ==> r == Failure(CultureNotFound(language))
    ensures amb.cultureOf(language).Some? ==>
              r == Success(TryGetStringCulture(rp, code, amb.cultureOf(language), amb.current))
  {
    match amb.cultureOf(language)
    case None => Failure(CultureNotFound(language))
    case Some(c) => Success(TryGetStringCulture(rp, code, Some(c), amb.current))
  }

  /** `GetString(code, language)`: the culture overload applied to `new CultureInfo(language)`. */
  function GetString(rp: ResourceProvider, code: string, language: string, amb: Ambient): (r: Result<string, Error>)
    ensures amb.cultureOf(language).None? ==> r == Failure(CultureNotFound(language))
    ensures amb.cultureOf(language).Some? ==>
              r == GetStringCulture(rp, code, amb.cultureOf(language), amb.current)
  {
    match amb.cultureOf(language)
    case None => Failure(CultureNotFound(language))
    case Some(c) => GetStringCulture(rp, code, Some(c), amb.current)
  }

  /**
   * The lower-cased two-letter names of the cultures, in order, for which the
   * manager has a resource set; cultures whose probe throws
   * `CultureNotFoundException` are skipped.
   */
  function ProbedLanguages(m: ResourceManager, cultures: seq<Culture>): (r: seq<string>)
    ensures forall c :: c in cultures && m.getResourceSet(c).ResourceSetFound? ==> Lower(c.twoLetterName) in r
    ensures forall l :: l in r ==> exists c :: c in cultures && m.getResourceSet(c).ResourceSetFound? && Lower(c.twoLetterName) == l
    ensures |r| <= |cultures|
    ensures |cultures| == 1 ==> r == if m.getResourceSet(cultures[0]).ResourceSetFound? then [Lower(cultures[0].twoLetterName)] else []
    decreases |cultures|
  {
    if |cultures| == 0 then []
    else
      var rest := ProbedLanguages(m, cultures[1..]);
      assert forall c :: c in cultures[1..] ==> c in cultures;
      if m.getResourceSet(cultures[0]).ResourceSetFound? then [Lower(cultures[0].twoLetterName)] + rest else rest
  }

  /**
   * The probe keeps the cultures' order: the languages found in a list
   * followed by another are those found in the first, then those found in
   * the second.
   */
  lemma {:induction false} ProbedLanguagesInOrder(m: ResourceManager, a: seq<Culture>, b: seq<Culture>)
    ensures ProbedLanguages(m, a + b) == ProbedLanguages(m, a) + ProbedLanguages(m, b)
    decreases |a|
  {
    if |a| > 0 {
      assert (a + b)[1..] == a[1..] + b;
      ProbedLanguagesInOrder(m, a[1..], b);
    } else {
      assert a + b == b;
    }
  }

  /**
   * `AddResourceManager(group, manager)`: the group's manager is replaced and
   * the languages the manager can serve, among `cultures`
   * (`CultureInfo.GetCultures(AllCultures)`), are appended to the list.
   */
  function AddResourceManager(rp: ResourceProvider, group: string, m: ResourceManager, cultures: seq<Culture>): (r: ResourceProvider)
    ensures r.prefix == rp.prefix
    ensures group in r.managers && r.managers[group] == m
    ensures forall g :: g != group ==> (g in r.managers <==> g in rp.managers)
    ensures forall g :: g != group && g in rp.managers ==> r.managers[g] == rp.managers[g]
    ensures |r.supported| >= |rp.supported| && r.supported[..|rp.supported|] == rp.supported
    ensures r.supported[|rp.supported|..] == ProbedLanguages(m, cultures)
    ensures forall c :: c in cultures && m.getResourceSet(c).ResourceSetFound? ==> Lower(c.twoLetterName) in GetSupportedLanguages(r)
    ensures forall l :: l in GetSupportedLanguages(r) ==>
              l in GetSupportedLanguages(rp) || exists c :: c in cultures && m.getResourceSet(c).ResourceSetFound? && Lower(c.twoLetterName) == l
  {
    var added := ProbedLanguages(m, cultures);
    var r := ResourceProvider(rp.prefix, rp.managers[group := m], rp.supported + added);
    assert r.supported[..|rp.supported|] == rp.supported;
    assert r.supported[|rp.supported|..] == added;
    r
  }

  /** `GetSupportedLanguages()`: the recorded languages without repeats, in first-recorded order. */
  function GetSupportedLanguages(rp: ResourceProvider): (r: seq<string>)
    ensures forall l :: l in r <==> l in rp.supported
    ensures forall i, j :: 0 <= i < j < |r| ==> r[i] != r[j]
  {
    Distinct(rp.supported)
  }

  /** A code that is not exactly `group.name` never resolves, whatever the managers hold. */
  lemma MalformedCodeMisses(rp: ResourceProvider, code: string, culture: Option<Culture>, current: Culture)
    requires |Split(code, '.')| != 2
    ensures TryGetStringCulture(rp, code, culture, current) == Missing(None)
    ensures GetStringCulture(rp, code, culture, current) == Failure(StringNotFound(code))
  {
  }

  /**
   * A registered group answers for `group.name`: when `group` and `name` hold
   * no dot and the manager returns non-empty text, that text is found.
   */
  lemma RegisteredGroupResolves(rp: ResourceProvider, group: string, name: string, c: Culture, text: string)
    requires '.' !in group && '.' !in name
    requires group in rp.managers && rp.managers[group].getString(name, c) == Fetched(Some(text))
    requires |text| > 0
    ensures TryGetStringCulture(rp, group + "." + name, Some(c), c) == Found(text)
  {
    SplitOfPair(group, name, '.');
  }
}
