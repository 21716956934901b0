/**
 * A person's name and its three renderings: full name, short name and
 * initials, ordered by whether the person's native culture is English.
 */
module PersonNames {
  import opened Wrappers
  import opened Errors
  import opened Cultures
  import opened Text

  /** The three parts, each possibly `null`, fixed at construction. */
  datatype PersonName = PersonName(givenName: Option<string>, surname: Option<string>, patronym: Option<string>)

  /** The message of the `ArgumentException` thrown for a blank given name. */
  const EmptyGivenName: string := "Empty givenName value is not allowed"

  /** The English ordering applies only to a culture whose two-letter name is "en"; a `null` culture is not English. */
  predicate IsEnglish(culture: Option<Culture>) {
    culture.Some? && culture.value.twoLetterName == "en"
  }

  /**
   * The reference rendering: the non-blank parts, in the order given,
   * separated by single spaces.
   */
  function JoinNonBlank(parts: seq<Option<string>>): string
    decreases |parts|
  {
    if |parts| == 0 then ""
    else
      var rest := JoinNonBlank(parts[1..]);
      if IsNullOrWhiteSpace(parts[0]) then rest
      else if rest == "" then parts[0].value
      else parts[0].value + " " + rest
  }

  /** Joining two parts: each one alone when the other is blank, both separated by a space otherwise. */
  lemma JoinTwo(a: Option<string>, b: Option<string>)
    ensures JoinNonBlank([a, b]) ==
              if IsNullOrWhiteSpace(a) then (if IsNullOrWhiteSpace(b) then "" else b.value)
              else if IsNullOrWhiteSpace(b) then a.value
              else a.value + " " + b.value
  {
    assert [a, b][1..] == [b];
    assert [b][1..] == [];
    assert JoinNonBlank([b]) == if IsNullOrWhiteSpace(b) then "" else b.value;
    if !IsNullOrWhiteSpace(b) {
      NotBlankIsNotEmpty(b);
    }
  }

  /** Joining three parts: the first, when not blank, in front of the join of the other two. */
  lemma JoinThree(a: Option<string>, b: Option<string>, c: Option<string>)
    ensures JoinNonBlank([a, b, c]) ==
              if IsNullOrWhiteSpace(a) then JoinNonBlank([b, c])
              else if JoinNonBlank([b, c]) == "" then a.value
              else a.value + " " + JoinNonBlank([b, c])
  {
    assert [a, b, c][1..] == [b, c];
  }

  /** `GetFullName(nativeCulture)`. */
  function GetFullName(n: PersonName, nativeCulture: Option<Culture>): (r: Result<string, Error>)
    ensures r.Failure? <==> IsNullOrWhiteSpace(n.givenName)
    ensures r.Failure? ==> r.error == Argument(EmptyGivenName)
    ensures r.Success? && IsEnglish(nativeCulture) ==> r.value == JoinNonBlank([n.givenName, n.patronym, n.surname])
    ensures r.Success? && !IsEnglish(nativeCulture) ==> r.value == JoinNonBlank([n.surname, n.givenName, n.patronym])
  {
    if IsNullOrWhiteSpace(n.givenName) then Failure(Argument(EmptyGivenName))
    else
      var given := n.givenName.value;
      JoinThree(n.givenName, n.patronym, n.surname);
      JoinTwo(n.patronym, n.surname);
      JoinThree(n.surname, n.givenName, n.patronym);
      JoinTwo(n.givenName, n.patronym);
      if IsEnglish(nativeCulture) then
        Success(
          if IsNullOrWhiteSpace(n.patronym) then
            (if IsNullOrWhiteSpace(n.surname) then given else given + " " + n.surname.value)
          else
            (if IsNullOrWhiteSpace(n.surname) then given + " " + n.patronym.value
             else given + " " + n.patronym.value + " " + n.surname.value))
      else
        Success(
          if IsNullOrWhiteSpace(n.patronym) then
            (if IsNullOrWhiteSpace(n.surname) then given else n.surname.value + " " + given)
          else
            (if IsNullOrWhiteSpace(n.surname) then given + " " + n.patronym.value
             else n.surname.value + " " + given + " " + n.patronym.value))
  }

  /** `GetInitials()`. */
  function GetInitials(n: PersonName): (r: Result<string, Error>)
    ensures r.Failure? <==> IsNullOrWhiteSpace(n.givenName)
    ensures r.Failure? ==> r.error == Argument(EmptyGivenName)
    // The initials open with the given name's first character and a dot ...
    ensures r.Success? ==> |r.value| >= 2 && r.value[..2] == [n.givenName.value[0], '.']
    // ... followed by nothing without a patronym, ...
    ensures r.Success? && IsNullOrEmpty(n.patronym) ==> r.value[2..] == ""
    // ... by an abbreviated patronym verbatim, ...
    ensures r.Success? && !IsNullOrEmpty(n.patronym) && n.patronym.value[|n.patronym.value| - 1] == '.' ==>
              r.value[2..] == n.patronym.value
    // ... or by the patronym's first character and a dot.
    ensures r.Success? && !IsNullOrEmpty(n.patronym) && n.patronym.value[|n.patronym.value| - 1] != '.' ==>
              r.value[2..] == [n.patronym.value[0], '.']
    // Either way they end with a dot.
    ensures r.Success? ==> r.value[|r.value| - 1] == '.'
  {
    if IsNullOrWhiteSpace(n.givenName) then Failure(Argument(EmptyGivenName))
    else
      var first := n.givenName.value[0];
      if IsNullOrEmpty(n.patronym) then Success([first, '.'])
      else if n.patronym.value[|n.patronym.value| - 1] == '.' then Success([first, '.'] + n.patronym.value)
      else Success([first, '.', n.patronym.value[0], '.'])
  }

  /** Initials always contain a dot, so they are never blank. */
  lemma InitialsNotBlank(n: PersonName)
    requires GetInitials(n).Success?
    ensures !IsNullOrWhiteSpace(Some(GetInitials(n).value))
  {
    assert !IsWhiteSpace(GetInitials(n).value[1]);
  }

  /** `GetShortName(nativeCulture)`. */
  function GetShortName(n: PersonName, nativeCulture: Option<Culture>): (r: Result<string, Error>)
    ensures r.Failure? <==> IsNullOrWhiteSpace(n.givenName)
    ensures r.Failure? ==> r.error == Argument(EmptyGivenName)
    ensures r.Success? && IsEnglish(nativeCulture) ==> r.value == JoinNonBlank([Some(GetInitials(n).value), n.surname])
    ensures r.Success? && !IsEnglish(nativeCulture) ==> r.value == JoinNonBlank([n.surname, Some(GetInitials(n).value)])
    ensures r.Success? && IsNullOrWhiteSpace(n.surname) ==> r.value == GetInitials(n).value
  {
    if IsNullOrWhiteSpace(n.givenName) then Failure(Argument(EmptyGivenName))
    else
      var initials := GetInitials(n).value;
      InitialsNotBlank(n);
      JoinTwo(Some(initials), n.surname);
      JoinTwo(n.surname, Some(initials));
      if IsEnglish(nativeCulture) then
        Success(if IsNullOrWhiteSpace(n.surname) then initials else initials + " " + n.surname.value)
      else
        Success(if IsNullOrWhiteSpace(n.surname) then initials else n.surname.value + " " + initials)
  }
}
