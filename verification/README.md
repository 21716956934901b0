# Localization engine of GlacialBytes.Foundation, in Dafny

This project models the localization core of the Foundation library and
proves properties about it. The core turns a string code into localized
text for a language. Its first character selects a provider: `%` for
resource-backed strings, `#` for the table provider loaded from XML
documents, and `!` for literal text. A code whose first character is not
registered goes to an optional default provider. A miss is retried once in
a "complementary" language.

The project also models:

- the three providers behind the provider interface;
- the deferred `LocalizedString`, which resolves only when it is turned into text;
- the `PersonName` formatter.

The model is functional. The process-wide `LocalizationFactory` singleton
becomes an explicit `Engine` value, and every mutator returns a new value.
Exceptions become the `Failure` side of a `Result`, and `null` becomes
`None`. A try-lookup's `bool` result and its `out` value together become a
`Lookup`: `Found(text)`, or `Missing(outValue)`.

Modules, one per source concern:

| file | module | models |
|---|---|---|
| wrappers.dfy | `Wrappers` | `Option`, `Result` |
| common.dfy | `Errors`, `Cultures`, `Records` | the exceptions; `CultureInfo` and the thread culture; `LanguagePair`, `LocalizedStringValue`, `Lookup` |
| text.dfy | `Text` | ASCII `ToUpper`/`ToLower`, `IsNullOrWhiteSpace`, `Split`, `string.Format` on `{0}`…`{9}`, `Distinct` |
| ordered_maps.dfy | `OrderedMaps` | `Dictionary` and `ListDictionary` with their enumeration order |
| xml_provider.dfy | `XmlProviders` | `XmlLocalizationProvider` |
| resource_provider.dfy | `ResourceProviders` | `ResourceLocalizationProvider` |
| providers.dfy | `Providers` | `ILocalizationProvider` over the three variants, including `DefaultLocalizationProvider` |
| factory.dfy | `LocalizationFactory` | `LocalizationFactory` |
| localized_string.dfy | `LocalizedStrings` | `LocalizedString` |
| person_name.dfy | `PersonNames` | `PersonName` |
| scenarios.dfy | `Scenarios` | worked examples proved on concrete inputs |

`GetComplementaryLanguage` returns `null` when its candidate equals the
requested language (`LocalizationFactory.cs:277`), so the complement of a
language never equals that language (`LocalizationFactory.ComplementaryLanguage`).

## Model

| member | source | states |
|---|---|---|
| OrderedMaps.Put | Foundation/Localizations/Xml/XmlLocalizationProvider.cs:158 | The indexer write stores the value under the key and leaves every other key's value alone. A new key is appended at the end of the enumeration order; an existing key keeps its place. |
| OrderedMaps.Entries | Foundation/Localizations/Xml/XmlLocalizationProvider.cs:132-135 | Enumeration lists every stored pair exactly once, in insertion order: the i-th entry is the i-th key with its value. |
| Text.Split | Foundation/Localizations/ResourceLocalizationProvider.cs:60 | Splitting yields at least one part. No part contains the separator, and joining the parts with it gives back the input. |
| Text.SplitOfPair | Foundation/Localizations/ResourceLocalizationProvider.cs:60-61 | `a.b`, where neither `a` nor `b` contains a dot, splits into exactly `[a, b]`. |
| Text.Distinct | Foundation/Localizations/ResourceLocalizationProvider.cs:147 | `Distinct` keeps exactly the elements of its input. It keeps each once, in the order of their first occurrences, and is never longer than the input. |
| Text.Format | Foundation/Localizations/LocalizedString.cs:74 | A template without `{` formats to itself, and so does any template given no arguments. A template that is one placeholder `{d}` formats to argument `d`. |
| XmlProviders.Empty | Foundation/Localizations/Xml/XmlLocalizationProvider.cs:22-35 | A new provider has prefix `#`, no default language and no supported languages. |
| XmlProviders.FallbackLookup | Foundation/Localizations/Xml/XmlLocalizationProvider.cs:103-110 | The fallback uses the table of the upper-cased default language. An unset default language dereferences `null`. A default language without a table throws `UnsupportedCulture` carrying the code. |
| XmlProviders.TryGetString | Foundation/Localizations/Xml/XmlLocalizationProvider.cs:97-111 | A lookup uses the upper-cased language's table if it exists, and the default language's table otherwise. The key is the upper-cased code. A miss carries no value. |
| XmlProviders.TryGetStringCultureAsWritten | Foundation/Localizations/Xml/XmlLocalizationProvider.cs:52-72 | The culture lookup probes the table of the culture name as given, then that of the upper-cased two-letter name, then the default language's (a `null` culture means the thread's). The key is the upper-cased code. |
| XmlProviders.TryGetStringCulture | Foundation/Localizations/Xml/XmlLocalizationProvider.cs:52-72 | The corrected lookup: the same three probes, with the culture name upper-cased as every table key is. |
| XmlProviders.TryGetStringCultureAsWrittenMissesRegionalTable | Foundation/Localizations/Xml/XmlLocalizationProvider.cs:57-58 | Take a table `EN-US` that `GetStrings` lists for culture en-US. The lookup as written misses it and ends in a `null` dereference; the corrected lookup finds the entry. |
| XmlProviders.GetStringCultureAsWrittenMissesRegionalTable | Foundation/Localizations/Xml/XmlLocalizationProvider.cs:77-82 | For the same input, `GetString(code, culture)` as written throws `NullReferenceException`, and the corrected one returns `us`. |
| XmlProviders.GetStringsAgreesWithTryGetStringCulture | Foundation/Localizations/Xml/XmlLocalizationProvider.cs:116-138 | Every entry `GetStrings` lists for a culture is what the corrected culture lookup finds for that key. |
| XmlProviders.GetString | Foundation/Localizations/Xml/XmlLocalizationProvider.cs:87-92 | `GetString` succeeds exactly when `TryGetString` finds, and returns the same text. A miss throws `StringNotFound(code)` and other exceptions pass through. |
| XmlProviders.GetStringCultureAsWritten | Foundation/Localizations/Xml/XmlLocalizationProvider.cs:77-82 | The culture `GetString` succeeds exactly when the as-written culture lookup finds, with the same text. A miss throws `StringNotFound(code)` and other exceptions pass through. |
| XmlProviders.GetStringCulture | Foundation/Localizations/Xml/XmlLocalizationProvider.cs:77-82 | The same agreement, over the corrected culture lookup: a miss throws `StringNotFound(code)` and other exceptions pass through. |
| XmlProviders.Prefixed | Foundation/Localizations/Xml/XmlLocalizationProvider.cs:131-135 | Every entry of the table appears once, in the table's order, with the prefix in front of its key, and nothing else appears. |
| XmlProviders.GetStrings | Foundation/Localizations/Xml/XmlLocalizationProvider.cs:116-138 | `GetStrings` returns the prefixed entries of the upper-cased culture name's table, else of the two-letter name's table, else nothing. It never falls back to the default language. |
| XmlProviders.AddString | Foundation/Localizations/Xml/XmlLocalizationProvider.cs:143-159 | The value is stored under the upper-cased code in the upper-cased language's table. That table is created at the end of the order if it is missing. Every other (language, key) pair keeps its value. |
| XmlProviders.GetSupportedLanguages | Foundation/Localizations/Xml/XmlLocalizationProvider.cs:164-172 | The result is exactly the tables' language keys, in the order the tables were created, all upper-case and without repeats. |
| XmlProviders.PutEntriesMerge | Foundation/Localizations/Xml/XmlLocalizationProvider.cs:202-208 | Writing the entries in order leaves each written key with the text of its last entry. Keys no entry writes are unchanged. |
| XmlProviders.LoadFromFile | Foundation/Localizations/Xml/XmlLocalizationProvider.cs:180-209 | Loading merges the document into the upper-cased language's table, creating it if needed. Each key becomes `GROUP.KEY`, or `KEY` without a group. Later entries win, unmentioned keys are kept, and other tables do not change. |
| XmlProviders.AddStringRoundTrip | Foundation/Localizations/Xml/XmlLocalizationProvider.cs:97-159 | After `AddString(c, v, l)`, `TryGetString(c', l')` finds `v` whenever `c'` matches `c` and `l'` matches `l` up to case. |
| XmlProviders.LoadFromFileRoundTrip | Foundation/Localizations/Xml/XmlLocalizationProvider.cs:180-209 | After loading a document, a code whose upper-case form is an entry's qualified key finds that key's last text. |
| ResourceProviders.Empty | Foundation/Localizations/ResourceLocalizationProvider.cs:35-51 | A new provider has prefix `%`, no managers and no supported languages. |
| ResourceProviders.TryGetStringCulture | Foundation/Localizations/ResourceLocalizationProvider.cs:56-80 | The lookup finds exactly when the code is `group.name` for a registered group and that manager returns non-empty text, and it finds that text. Everything else misses with `null`, including a manager fault. |
| ResourceProviders.GetStringCulture | Foundation/Localizations/ResourceLocalizationProvider.cs:85-106 | Every failure is `StringNotFound(code)`. |
| ResourceProviders.GetStringAgreesWithTryGetString | Foundation/Localizations/ResourceLocalizationProvider.cs:56-106 | `GetString` succeeds exactly when `TryGetString` finds, with the same text. |
| ResourceProviders.TryGetString | Foundation/Localizations/ResourceLocalizationProvider.cs:111-114 | The language overload is the culture overload applied to `new CultureInfo(language)`. An unknown language throws `CultureNotFound`. |
| ResourceProviders.GetString | Foundation/Localizations/ResourceLocalizationProvider.cs:119-122 | The same, for `GetString`. |
| ResourceProviders.ProbedLanguages | Foundation/Localizations/ResourceLocalizationProvider.cs:160-171 | The result is the lower-cased two-letter names of exactly those cultures whose resource-set probe found a set. |
| ResourceProviders.ProbedLanguagesInOrder | Foundation/Localizations/ResourceLocalizationProvider.cs:160-171 | The probe keeps the cultures' order: probing one list and then another gives the first list's languages followed by the second's. |
| ResourceProviders.AddResourceManager | Foundation/Localizations/ResourceLocalizationProvider.cs:156-172 | The group's manager is replaced and every other group keeps its manager. The recorded language list only grows at its end, where it gains the probed cultures' languages in the cultures' order. |
| ResourceProviders.GetSupportedLanguages | Foundation/Localizations/ResourceLocalizationProvider.cs:145-148 | The supported languages are the recorded ones without repeats. |
| ResourceProviders.MalformedCodeMisses | Foundation/Localizations/ResourceLocalizationProvider.cs:60-61 | A code that does not split into exactly two parts misses in `TryGetString` and throws `StringNotFound` in `GetString`. |
| ResourceProviders.RegisteredGroupResolves | Foundation/Localizations/ResourceLocalizationProvider.cs:60-75 | `group.name` finds the registered manager's non-empty answer. |
| Providers.StringPrefix | Foundation/Localizations/DefaultLocalizationProvider.cs:22-24 | The passthrough provider always answers to `!`. A new table provider answers to `#` and a new resource provider to `%`. |
| Providers.SetStringPrefix | Foundation/Localizations/DefaultLocalizationProvider.cs:22-26 | The passthrough provider refuses a new prefix with `NotSupported`. The other providers take it and answer every lookup as before. |
| Providers.TryGetString | Foundation/Localizations/DefaultLocalizationProvider.cs:82-86 | The passthrough provider finds every code as its own text. |
| Providers.GetString | Foundation/Localizations/DefaultLocalizationProvider.cs:47-50 | The passthrough provider returns every code unchanged. |
| Providers.TryGetStringCulture | Foundation/Localizations/DefaultLocalizationProvider.cs:73-77 | The passthrough provider finds every code in every culture. The resource provider's culture lookup never throws. The table provider probes the culture name as given, then the upper-cased two-letter name, then its default language, as the source does. |
| Providers.GetStringCulture | Foundation/Localizations/DefaultLocalizationProvider.cs:39-42 | The passthrough provider returns the code. For every provider, including the table provider's as-written lookup, the culture `GetString` succeeds exactly when the culture `TryGetString` finds, with the same text. |
| Providers.GetStringAgreesWithTryGetString | Foundation/Localizations/ILocalizationProvider.cs:40-48 | For every provider, `GetString` is `TryGetString` made strict: a miss throws `StringNotFound(code)` and other exceptions pass through. |
| Providers.GetStrings | Foundation/Localizations/DefaultLocalizationProvider.cs:56-59 | Only the table provider enumerates; the passthrough and resource providers throw `NotSupported`. Every key carries the provider's prefix. |
| Providers.AddString | Foundation/Localizations/DefaultLocalizationProvider.cs:31-34 | Only the table provider accepts strings; the others throw `NotSupported`. |
| Providers.GetSupportedLanguages | Foundation/Localizations/DefaultLocalizationProvider.cs:64-67 | The passthrough provider reports exactly `["ru", "en"]`, and no provider repeats a language. |
| Providers.AddStrings | Foundation/Localizations/LocalizationFactory.cs:240-243 | The loop adds the values in order. On a provider that cannot add strings, any value makes it throw `NotSupported`. It keeps the table provider's prefix, default language and invariant. |
| Providers.AddStringsFrame | Foundation/Localizations/LocalizationFactory.cs:240-243 | On the table provider, a (language, key) pair that no value writes keeps its value through the loop. |
| Providers.AddStringsLastPerLanguage | Foundation/Localizations/LocalizationFactory.cs:240-243 | On the table provider, the last value given for a language, up to case, is the one left under the code. |
| Providers.AddStringsMerge | Foundation/Localizations/LocalizationFactory.cs:240-243 | On the table provider, after the loop each language given holds, under the code, the last value given for it, up to case. Every (language, key) pair no value writes keeps its value. |
| LocalizationFactory.Initial | Foundation/Localizations/LocalizationFactory.cs:35-54 | The new engine registers exactly `%`, `#` and `!`, holding a new resource provider, a new table provider and the passthrough provider. Its pairs are ru→en, en→ru, uk→ru in that order, its default language is `en`, and it has no default provider. |
| LocalizationFactory.Dispatch | Foundation/Localizations/LocalizationFactory.cs:113-121 | A registered first character selects its provider with the rest of the code as the key. Otherwise the default provider gets the whole code. With neither, there is no provider. |
| LocalizationFactory.FirstPairIndex | Foundation/Localizations/LocalizationFactory.cs:274 | The result is the position of the first pair whose main language matches, or none when no pair matches. |
| LocalizationFactory.ComplementaryLanguage | Foundation/Localizations/LocalizationFactory.cs:272-278 | The result is the first matching pair's complement, else the default language. It is `null` when that candidate is the requested language, so the result never equals it. |
| LocalizationFactory.LookupWithFallback | Foundation/Localizations/LocalizationFactory.cs:121-139 | A hit is final. A miss is retried at most once, in a non-empty complement, and the retry's outcome is final. `UnsupportedCulture` from either attempt becomes a miss carrying the key, and never escapes. Any other exception from the first attempt, such as `NullReference` or `CultureNotFound`, escapes unchanged. |
| LocalizationFactory.TryGetString | Foundation/Localizations/LocalizationFactory.cs:99-146 | An empty code throws. A `!` code yields the rest of the code before anything else. Otherwise the dispatched provider is asked with one fallback hop. With no provider the result is a miss whose value is `null`, not the code. |
| LocalizationFactory.TryGetStringCulture | Foundation/Localizations/LocalizationFactory.cs:62-77 | The culture overloads use the culture's two-letter name; a `null` culture uses the thread's language. |
| LocalizationFactory.GetString | Foundation/Localizations/LocalizationFactory.cs:154-159 | `GetString` succeeds exactly when `TryGetString` finds, and otherwise throws `StringNotFound(code)` or the lookup's exception. |
| LocalizationFactory.GetStringCulture | Foundation/Localizations/LocalizationFactory.cs:85-90 | The culture `GetString` is the language `GetString` on the culture's two-letter name. |
| LocalizationFactory.CollectValues | Foundation/Localizations/LocalizationFactory.cs:183-208 | The loop yields one entry per language, in order: the provider's text, or the key after `StringNotFound`. The flag is true exactly when every language resolved. Any other exception ends the loop as that of the first language that raised it. |
| LocalizationFactory.TryGetStringValues | Foundation/Localizations/LocalizationFactory.cs:167-209 | With no provider it throws `ProviderNotFound(prefix)`. Otherwise it collects over the provider's supported languages with the provider's own `GetString`, without the complementary fallback. |
| LocalizationFactory.GetStringValues | Foundation/Localizations/LocalizationFactory.cs:216-221 | The result is the values when every language resolved, and an empty sequence when any missed. The exception of `TryGetStringValues` passes through unchanged. |
| LocalizationFactory.AddStringValuesAsWritten | Foundation/Localizations/LocalizationFactory.cs:228-244 | Without a provider it throws `StringNotFound(code)`. Otherwise the values are added in order under the code minus its first character, on both paths. |
| LocalizationFactory.AddStringValuesAsWrittenMissesDefaultProvider | Foundation/Localizations/LocalizationFactory.cs:239 | A value added through the default provider is not found by the lookup of the same code as written. It is found after the correction. |
| LocalizationFactory.AddStringValues | Foundation/Localizations/LocalizationFactory.cs:228-244 | This is the corrected version: values are stored under the key lookups use. It keeps the engine invariant, each slot holding a provider with that prefix, and the set of prefixes. |
| LocalizationFactory.AddStringValuesRoundTrip | Foundation/Localizations/LocalizationFactory.cs:228-244 | On a table provider, registered or default, the same code then finds, in each language given and in any case, the last value given for that language. |
| LocalizationFactory.RegisterProvider | Foundation/Localizations/LocalizationFactory.cs:250-253 | Registration adds or replaces the provider's own prefix, and nothing else in the engine changes. |
| LocalizationFactory.GetProvider | Foundation/Localizations/LocalizationFactory.cs:260-265 | It returns the registered provider, or throws `ProviderNotFound(prefix)`. |
| LocalizationFactory.RegisterThenGet | Foundation/Localizations/LocalizationFactory.cs:250-265 | After registration the provider is found under its prefix, and every other prefix answers as before. |
| LocalizedStrings.FromCode | Foundation/Localizations/LocalizedString.cs:25-28 | The one-argument constructor keeps the code and has no parameters. |
| LocalizedStrings.WithParameters | Foundation/Localizations/LocalizedString.cs:35-39 | The two-argument constructor keeps the code and the parameters. |
| LocalizedStrings.ToStringLanguage | Foundation/Localizations/LocalizedString.cs:99-109 | A null or empty code is `""`. A miss is the code verbatim. A hit is the text, formatted only when there are parameters. An exception from the engine is the only failure. |
| LocalizedStrings.ToString | Foundation/Localizations/LocalizedString.cs:65-75 | `ToString()` renders in the thread's language. |
| LocalizedStrings.ToStringCulture | Foundation/Localizations/LocalizedString.cs:82-92 | A culture renders in its two-letter language, and a `null` culture is `ToString()`. |
| LocalizedStrings.FromString | Foundation/Localizations/LocalizedString.cs:56-59 | The conversion from a string is the parameterless constructor. |
| LocalizedStrings.AsString | Foundation/Localizations/LocalizedString.cs:46-49 | The conversion to a string is `ToString()`. |
| LocalizedStrings.LiteralRendersItself | Foundation/Localizations/LocalizationFactory.cs:104-108 | A `!` code renders as its text in every language and with every engine. |
| LocalizedStrings.ConversionRoundTrip | Foundation/Localizations/LocalizedString.cs:46-70 | A string converted to a deferred string and back is its translation, or itself on a miss. |
| LocalizedStrings.MissDegradesToCode | Foundation/Localizations/LocalizedString.cs:103-104 | A miss never fails and shows the code. |
| PersonNames.GetFullName | Foundation/PersonName.cs:31-48 | A blank given name throws `ArgumentException`. For an English culture the result is the non-blank parts joined in the order given, patronym, surname. Otherwise, including for a `null` culture, the order is surname, given, patronym. |
| PersonNames.GetInitials | Foundation/PersonName.cs:75-84 | A blank given name throws. The result is the given name's first character and a dot. It is followed by nothing without a patronym, the patronym verbatim if it ends in a dot, or its first character and a dot otherwise. |
| PersonNames.InitialsNotBlank | Foundation/PersonName.cs:80-83 | Initials are never blank. |
| PersonNames.GetShortName | Foundation/PersonName.cs:55-69 | A blank given name throws. The result is the initials and the non-blank surname: initials first in English, surname first otherwise. The initials stand alone without a surname. |
| Scenarios.InitialComplements | Foundation/Localizations/LocalizationFactory.cs:46-53 | With the seeded pairs: ru→en, en→ru, uk→ru, and an unpaired language gets `en`. |
| Scenarios.PassthroughValues | Foundation/Localizations/LocalizationFactory.cs:167-221 | The values of `!abc` are `ru: abc` and `en: abc`. |
| Scenarios.FallbackIsOneHop | Foundation/Localizations/LocalizationFactory.cs:125-132 | A Ukrainian lookup stops after Russian, although English holds the entry. |
| Scenarios.GreetingResolves | Foundation/Localizations/Xml/XmlLocalizationProvider.cs:180-209 | A loaded `greeting` answers in English, and in French through the default language. |
| Scenarios.FormatPrefix | Foundation/Localizations/LocalizedString.cs:74 | Text before the first `{` is copied verbatim. |
| Scenarios.DeferredGreeting | Foundation/Localizations/LocalizedString.cs:99-109 | `#greet` = `Hello, {0}!` with `World` renders `Hello, World!`. |

## Left out

- XML parsing in `LoadFromFile` (`XDocument.Load`): the document arrives already parsed, as an optional group and its entries in document order.
- Unicode case mapping: `Upper`/`Lower` map ASCII letters only; other characters are unchanged.
- `string.Format`: only `{0}`…`{9}` whose index names an argument are substituted. Escaped braces, alignment and format strings are not modelled, and the `FormatException` for a bad template is not. The parameters arrive already rendered as strings.
- The thread culture, `new CultureInfo(name)`, `CultureInfo.GetCultures` and `ResourceManager`: they are parameters (an `Ambient` value, a culture list, and a manager given by its two answers). A manager's exceptions become a single `Fault`.
- The `Singleton` base class, its lazy construction and thread safety: the engine is an explicit value.
- Reference aliasing of providers: each slot holds its own value, so changing a provider through one slot is not seen through another slot holding the same object.
- `ResourceLocalizationProvider.DefaultLanguage`: it is never read.
- Enumeration order of `Dictionary`: assumed to be insertion order.
- `null` codes, languages and `LocalizedStringValue` fields passed straight to a provider, and the `NullReferenceException` a `null` `LocalizedString` would throw on conversion.
- Probe exceptions in `AddResourceManager` other than `CultureNotFoundException`.
- Providers.AddStrings: the merge property (`AddStringsMerge`) is stated for the table provider only, since the other providers reject every value.
- Text positions: a Dafny `string` is a sequence of Unicode scalar values, while .NET indexes UTF-16 code units. So `GivenName[0]`, `Patronym[0]` (`PersonName.cs:81-83`), `code[0]` and `Substring(1)` (`LocalizationFactory.cs:101`, `118`, `239`) differ from the model when the first character lies outside the Basic Multilingual Plane.
- Provider identity: `GetProvider` returns the registered value, not a shared object. Changing the result (`LoadFromFile`, `AddResourceManager`) is seen by the engine only after the provider is registered again, whereas in the source such a change acts on the registered instance at once.

## Findings

The counterexamples are `LocalizationFactory.AddStringValuesAsWrittenMissesDefaultProvider` and `XmlProviders.TryGetStringCultureAsWrittenMissesRegionalTable`. The corrected properties are proved in `LocalizationFactory.AddStringValuesRoundTrip` and `XmlProviders.GetStringsAgreesWithTryGetStringCulture`. The provider interface (`Providers.TryGetStringCulture`, `Providers.GetStringCulture`) keeps the table provider's culture lookup as written; the corrected lookup is `XmlProviders.TryGetStringCulture` with `XmlProviders.GetStringCulture`.

| source | as written | input that shows it | evidently intended | confidence | as-written member | corrected member |
|---|---|---|---|---|---|---|
| Foundation/Localizations/LocalizationFactory.cs:239 | `AddStringValues` drops the first character of the code even when the default provider, which lookups ask for the whole code, takes it. | Default provider: a table provider with default language `en`. `AddStringValues("xk", [en: v])` stores `K`, and `TryGetString("xk", "en")` misses. | Strip the prefix only when a registered provider takes the code, as `TryGetString` does. | not executed | LocalizationFactory.AddStringValuesAsWritten | LocalizationFactory.AddStringValues |
| Foundation/Localizations/Xml/XmlLocalizationProvider.cs:57 | The culture lookup probes `culture.Name` without upper-casing it, although every table key is upper-case. | A table `EN-US` holding `K` = `us`, no default language, culture en-US. `GetStrings` lists `#K`, but `TryGetString("k", en-US)` throws `NullReferenceException`. | Probe `culture.Name.ToUpper()`, as `GetStrings` does. | not executed | XmlProviders.TryGetStringCultureAsWritten | XmlProviders.TryGetStringCulture |
