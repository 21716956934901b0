/** The exceptions the localization core raises or lets through, as one datatype. */
module Errors {

  datatype Error =
      /** A localized string has no usable translation; carries the requested code. */
    | StringNotFound(stringCode: string)
      /** No provider is registered for a prefix; carries the prefix. */
    | ProviderNotFound(providerPrefix: char)
      /** A provider holds no table for the culture or its fallback; carries the code being looked up. */
    | UnsupportedCulture(cultureName: string)
      /** The provider does not implement this capability (`NotSupportedException`). */
    | NotSupported
      /** `new CultureInfo(name)` rejected a culture name (`CultureNotFoundException`). */
    | CultureNotFound(name: string)
      /** A member was used through a `null` reference (an unset default language). */
    | NullReference
      /** `code[0]` was read from an empty code. */
    | IndexOutOfRange
      /** `ArgumentException` with its message. */
    | Argument(message: string)
}

/** Cultures and the ambient state the source reads from the running thread and the runtime. */
module Cultures {
  import opened Wrappers

  /** A `CultureInfo`, reduced to the two names the core reads: `Name` ("en-US") and `TwoLetterISOLanguageName` ("en"). */
  datatype Culture = Culture(name: string, twoLetterName: string)

  /**
   * What the source takes from its environment:
   * `current` is `Thread.CurrentThread.CurrentCulture`, and
   * `cultureOf(name)` is `new CultureInfo(name)`, `None` when the runtime rejects the name.
   */
  datatype Ambient = Ambient(current: Culture, cultureOf: string -> Option<Culture>)
}

/** The small records shared by the providers and the engine. */
module Records {
  import opened Wrappers

  /** A directed fallback rule: a miss in `mainLanguage` is retried once in `complementaryLanguage`. */
  datatype LanguagePair = LanguagePair(mainLanguage: string, complementaryLanguage: string)

  /** One language's text for a code, as enumerated by `TryGetStringValues`. */
  datatype LocalizedStringValue = LocalizedStringValue(language: string, value: string)

  /**
   * The result of a try-style lookup: the boolean return and the `out` value together.
   * On a miss the `out` value is whatever the callee left in it (`None` for `null`).
   */
  datatype Lookup = Found(value: string) | Missing(outValue: Option<string>)

  /** A found entry becomes `Found`; an absent one the `null` that `TryGetValue` leaves behind. */
  function FromOption(o: Option<string>): (r: Lookup)
    ensures r.Found? <==> o.Some?
    ensures r.Found? ==> r.value == o.value
    ensures r.Missing? ==> r.outValue.None?
  {
    match o
    case Some(v) => Found(v)
    case None => Missing(None)
  }
}
