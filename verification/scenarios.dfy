/**
 * Worked examples, proved on concrete inputs: the seeded language pairs, the passthrough
 * enumeration, the one-hop limit of the fallback, a table loaded from a
 * document, and a formatted deferred string.
 */
module Scenarios {
  import opened Wrappers
  import opened Cultures
  import opened Records
  import opened Text
  import OM = OrderedMaps
  import X = XmlProviders
  import P = Providers
  import F = LocalizationFactory
  import L = LocalizedStrings

  /** The seeded pairs: ru and en complement each other, uk falls back to ru, anything else to the default "en". */
  lemma InitialComplements()
    ensures F.ComplementaryLanguage(F.Initial(), "ru") == Some("en")
    ensures F.ComplementaryLanguage(F.Initial(), "en") == Some("ru")
    ensures F.ComplementaryLanguage(F.Initial(), "uk") == Some("ru")
    ensures F.ComplementaryLanguage(F.Initial(), "fr") == Some("en")
  {
    var pairs := F.Initial().languagePairs;
    assert pairs[0].mainLanguage == "ru" && pairs[1].mainLanguage == "en" && pairs[2].mainLanguage == "uk";
    assert forall i :: 0 <= i < |pairs| ==> pairs[i].mainLanguage != "fr";
  }

  /** Enumerating a literal code lists the passthrough provider's languages, each with the code after the marker. */
  lemma PassthroughValues(amb: Ambient)
    ensures F.GetStringValues(F.Initial(), "!abc", amb) == Success([LocalizedStringValue("ru", "abc"), LocalizedStringValue("en", "abc")])
  {
    var values := F.TryGetStringValues(F.Initial(), "!abc", amb);
    assert "!abc"[1..] == "abc";
    assert F.Dispatch(F.Initial(), "!abc") == Some(F.Route(F.Registered('!'), P.Passthrough, "abc"));
    assert P.GetSupportedLanguages(P.Passthrough) == ["ru", "en"];
    assert values.Success? && values.value.0;
    assert |values.value.1| == 2;
    assert values.value.1[0] == LocalizedStringValue("ru", "abc");
    assert values.value.1[1] == LocalizedStringValue("en", "abc");
    assert values.value.1 == [LocalizedStringValue("ru", "abc"), LocalizedStringValue("en", "abc")];
  }

  /** A table provider with an empty Russian table, an English table holding `K`, and default language "ru". */
  function RussianDefault(): X.XmlProvider {
    X.XmlProvider(X.DefaultPrefix, Some("ru"),
      OM.OrderedMap(["RU", "EN"], map["RU" := OM.Empty(), "EN" := OM.OrderedMap(["K"], map["K" := "hello"])]))
  }

  /** The provider's own answers: Ukrainian and Russian fall back to the empty Russian table, English has the entry. */
  lemma RussianDefaultLookups()
    ensures X.TryGetString(RussianDefault(), "k", "uk") == Success(Missing(None))
    ensures X.TryGetString(RussianDefault(), "k", "ru") == Success(Missing(None))
    ensures X.TryGetString(RussianDefault(), "k", "en") == Success(Found("hello"))
  {
    assert Upper("uk") == "UK" && Upper("ru") == "RU" && Upper("en") == "EN" && Upper("k") == "K";
  }

  /**
   * The fallback takes one hop only: a Ukrainian lookup retries in Russian
   * and stops there, although Russian's own complement, English, has the
   * entry.
   */
  lemma FallbackIsOneHop(amb: Ambient)
    ensures F.TryGetString(F.RegisterProvider(F.Initial(), P.Xml(RussianDefault())), "#k", Some("uk"), amb) == Success(Missing(None))
    ensures F.TryGetString(F.RegisterProvider(F.Initial(), P.Xml(RussianDefault())), "#k", Some("en"), amb) == Success(Found("hello"))
  {
    var e := F.RegisterProvider(F.Initial(), P.Xml(RussianDefault()));
    RussianDefaultLookups();
    assert "#k"[1..] == "k";
    assert e.providers['#'] == P.Xml(RussianDefault());
    assert e.languagePairs == F.Initial().languagePairs;
    InitialComplements();
  }

  /** The table provider after loading one ungrouped entry, `greeting` = "Hello", for language EN, whose default language is EN. */
  function Greetings(): X.XmlProvider {
    X.LoadFromFile(X.Empty().(defaultLanguage := Some("EN")), X.XmlDocument(None, [X.XmlEntry("greeting", "Hello")]), "EN")
  }

  /** The loaded entry answers in English, and in French through the provider's own default language. */
  lemma GreetingResolves(x: X.XmlProvider, e: F.Engine, amb: Ambient)
    requires x == Greetings() && e == F.RegisterProvider(F.Initial(), P.Xml(x))
    ensures F.GetString(e, "#greeting", Some("en"), amb) == Success("Hello")
    ensures F.GetString(e, "#greeting", Some("fr"), amb) == Success("Hello")
  {
    GreetingLookups(x);
    assert e.providers['#'] == P.Xml(x);
    assert "#greeting"[1..] == "greeting";
    assert P.TryGetString(P.Xml(x), "greeting", "en", amb) == Success(Found("Hello"));
    assert P.TryGetString(P.Xml(x), "greeting", "fr", amb) == Success(Found("Hello"));
    F.RegisteredRouteLookup(e, "#greeting", "en", amb);
    F.RegisteredRouteLookup(e, "#greeting", "fr", amb);
  }

  /** The provider's own answers for `greeting`: found in English, and in French through the default language. */
  lemma GreetingLookups(x: X.XmlProvider)
    requires x == Greetings()
    ensures X.TryGetString(x, "greeting", "en") == Success(Found("Hello"))
    ensures X.TryGetString(x, "greeting", "fr") == Success(Found("Hello"))
  {
    var doc := X.XmlDocument(None, [X.XmlEntry("greeting", "Hello")]);
    assert Upper("EN") == "EN" && Upper("en") == "EN" && Upper("fr") == "FR";
    assert X.EntryKey(X.GroupPrefix(doc.group), "greeting") == Upper("greeting");
    X.LoadFromFileRoundTrip(X.Empty().(defaultLanguage := Some("EN")), doc, "EN", 0, "greeting", "en");
    assert "FR" !in x.tables.items;
  }

  /** The template `Hello, {0}!` with the argument "World". */
  lemma FormatGreeting()
    ensures Format("Hello, {0}!", ["World"]) == "Hello, World!"
  {
    var args := ["World"];
    assert "Hello, " + "{0}!" == "Hello, {0}!";
    assert '{' !in "Hello, ";
    FormatPrefix("Hello, ", "{0}!", args);
    assert StartsWithPlaceholder("{0}!", args) && DigitValue('0') == 0;
    assert "{0}!"[3..] == "!";
    assert '{' !in "!";
    assert Format("{0}!", args) == "World" + "!";
    assert "Hello, " + ("World" + "!") == "Hello, World!";
  }

  /** Characters before the first `{` are copied verbatim in front of the rest's formatting. */
  lemma {:induction false} FormatPrefix(plain: string, rest: string, args: seq<string>)
    requires '{' !in plain
    ensures Format(plain + rest, args) == plain + Format(rest, args)
    decreases |plain|
  {
    if |plain| > 0 {
      assert (plain + rest)[0] == plain[0] && (plain + rest)[1..] == plain[1..] + rest;
      assert '{' !in plain[1..];
      FormatPrefix(plain[1..], rest, args);
      assert Format(plain + rest, args) == [plain[0]] + (plain[1..] + Format(rest, args));
      assert plain == [plain[0]] + plain[1..];
    } else {
      assert plain + rest == rest;
    }
  }

  /** A deferred string with a parameter renders its resolved template filled in. */
  lemma DeferredGreeting(amb: Ambient)
    ensures L.ToStringLanguage(L.LocalizedString(Some("#greet"), Some(["World"])),
                               F.RegisterProvider(F.Initial(), P.Xml(X.AddString(X.Empty(), "greet", "Hello, {0}!", "en"))),
                               Some("en"), amb) == Success("Hello, World!")
  {
    var x := X.AddString(X.Empty(), "greet", "Hello, {0}!", "en");
    assert "#greet"[1..] == "greet";
    X.AddStringRoundTrip(X.Empty(), "greet", "Hello, {0}!", "en", "greet", "en");
    FormatGreeting();
  }
}
