/**
 * The deferred string: a code and its format parameters, resolved against
 * an engine only when it is turned into text. Both fields are set at
 * construction and never change, which an immutable datatype states by
 * itself.
 */
module LocalizedStrings {
  import opened Wrappers
  import opened Errors
  import opened Cultures
  import opened Records
  import opened Text
  import F = LocalizationFactory

  /** `code` is `Code` (possibly `null`); `parameters` is the `params` array (possibly `null`), already rendered as text. */
  datatype LocalizedString = LocalizedString(code: Option<string>, parameters: Option<seq<string>>)

  /** `new LocalizedString(code)`: no parameters. */
  function FromCode(code: Option<string>): (s: LocalizedString)
    ensures s.code == code && s.parameters.None?
  {
    LocalizedString(code, None)
  }

  /** `new LocalizedString(code, parameters)`. */
  function WithParameters(code: Option<string>, parameters: Option<seq<string>>): (s: LocalizedString)
    ensures s.code == code && s.parameters == parameters
  {
    LocalizedString(code, parameters)
  }

  /** True when there is nothing to substitute: no array, or an empty one. */
  predicate HasNoParameters(s: LocalizedString) {
    s.parameters.None? || |s.parameters.value| == 0
  }

  /**
   * `ToString(language)`: an empty code is empty text and asks nothing of the
   * engine; a miss shows the code verbatim; a hit is the resolved text,
   * formatted with the parameters when there are any. Exceptions the engine
   * lets through are not caught.
   */
  function ToStringLanguage(s: LocalizedString, e: F.Engine, language: Option<string>, amb: Ambient): (r: Result<string, Error>)
    ensures IsNullOrEmpty(s.code) ==> r == Success("")
    ensures !IsNullOrEmpty(s.code) ==>
              var lookup := F.TryGetString(e, s.code.value, language, amb);
              && (lookup.Failure? ==> r == Failure(lookup.error))
              && (lookup.Success? && lookup.value.Missing? ==> r == Success(s.code.value))
              && (lookup.Success? && lookup.value.Found? && HasNoParameters(s) ==> r == Success(lookup.value.value))
              && (lookup.Success? && lookup.value.Found? && !HasNoParameters(s) ==>
                    r == Success(Format(lookup.value.value, s.parameters.value)))
    ensures r.Failure? ==> !IsNullOrEmpty(s.code) && F.TryGetString(e, s.code.value, language, amb).Failure?
  {
    if IsNullOrEmpty(s.code) then Success("")
    else
      match F.TryGetString(e, s.code.value, language, amb)
      case Failure(err) => Failure(err)
      case Success(Missing(_)) => Success(s.code.value)
      case Success(Found(v)) =>
        if HasNoParameters(s) then Success(v) else Success(Format(v, s.parameters.value))
  }

  /** `ToString()`: the thread's language. */
  function ToString(s: LocalizedString, e: F.Engine, amb: Ambient): (r: Result<string, Error>)
    ensures r == ToStringLanguage(s, e, None, amb)
  {
    ToStringLanguage(s, e, None, amb)
  }

  /** `ToString(culture)`: the culture's two-letter name, or the thread's language for a `null` culture. */
  function ToStringCulture(s: LocalizedString, e: F.Engine, culture: Option<Culture>, amb: Ambient): (r: Result<string, Error>)
    ensures culture.None? ==> r == ToString(s, e, amb)
    ensures culture.Some? ==> r == ToStringLanguage(s, e, Some(culture.value.twoLetterName), amb)
  {
    ToStringLanguage(s, e, if culture.Some? then Some(culture.value.twoLetterName) else None, amb)
  }

  /** The implicit conversion from a string: a parameterless instance with that code. */
  function FromString(str: Option<string>): (s: LocalizedString)
    ensures s == FromCode(str)
  {
    LocalizedString(str, None)
  }

  /** The implicit conversion to a string: `ToString()`. */
  function AsString(s: LocalizedString, e: F.Engine, amb: Ambient): (r: Result<string, Error>)
    ensures r == ToString(s, e, amb)
  {
    ToString(s, e, amb)
  }

  /**
   * A literal code renders as the text after its marker in every language and
   * with every engine, registered providers or not; its parameters are still
   * substituted.
   */
  lemma LiteralRendersItself(text: string, parameters: Option<seq<string>>, e: F.Engine, language: Option<string>, amb: Ambient)
    ensures ToStringLanguage(LocalizedString(Some([F.LiteralMarker] + text), parameters), e, language, amb) ==
              Success(if parameters.None? || |parameters.value| == 0 then text else Format(text, parameters.value))
  {
    assert ([F.LiteralMarker] + text)[1..] == text;
  }

  /**
   * Converting a plain string to a deferred string and back gives the
   * string's translation when the engine has one, and the string itself
   * when the engine misses; nothing is formatted.
   */
  lemma ConversionRoundTrip(str: string, e: F.Engine, amb: Ambient)
    requires |str| > 0
    ensures F.TryGetString(e, str, None, amb).Success? ==>
              AsString(FromString(Some(str)), e, amb) ==
              Success(match F.TryGetString(e, str, None, amb).value
                      case Found(v) => v
                      case Missing(_) => str)
  {
  }

  /** A deferred string never turns a miss into an error: only exceptions from the engine surface. */
  lemma MissDegradesToCode(s: LocalizedString, e: F.Engine, language: Option<string>, amb: Ambient)
    requires !IsNullOrEmpty(s.code)
    requires F.TryGetString(e, s.code.value, language, amb).Success?
    ensures ToStringLanguage(s, e, language, amb).Success?
    ensures F.TryGetString(e, s.code.value, language, amb).value.Missing? ==> ToStringLanguage(s, e, language, amb) == Success(s.code.value)
  {
  }
}
