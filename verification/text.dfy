/**
 * The string primitives the core relies on: case mapping, blank tests,
 * `Split` on one separator, positional formatting and de-duplication.
 */
module Text {
  import opened Wrappers

  /** Upper-cases a Latin letter; every other character is left as it is. */
  function UpperChar(c: char): char {
    if 'a' <= c <= 'z' then (c as int - 32) as char else c
  }

  /** Lower-cases a Latin letter; every other character is left as it is. */
  function LowerChar(c: char): char {
    if 'A' <= c <= 'Z' then (c as int + 32) as char else c
  }

  /** `String.ToUpper()`, character by character. */
  function Upper(s: string): string {
    seq(|s|, i requires 0 <= i < |s| => UpperChar(s[i]))
  }

  /** `String.ToLower()`, character by character. */
  function Lower(s: string): string {
    seq(|s|, i requires 0 <= i < |s| => LowerChar(s[i]))
  }

  /** Upper-casing is a canonical form: applying it twice changes nothing more. */
  lemma UpperIdempotent(s: string)
    ensures Upper(Upper(s)) == Upper(s)
  {
  }

  /** `Char.IsWhiteSpace`: the separator categories plus the control characters U+0009–U+000D, U+0085. */
  predicate IsWhiteSpace(c: char) {
    || ('\t' <= c <= '\r')
    || c == ' '
    || c == '\U{85}'
    || c == '\U{A0}'
    || c == '\U{1680}'
    || ('\U{2000}' <= c <= '\U{200A}')
    || c == '\U{2028}'
    || c == '\U{2029}'
    || c == '\U{202F}'
    || c == '\U{205F}'
    || c == '\U{3000}'
  }

  /** `String.IsNullOrEmpty`. */
  predicate IsNullOrEmpty(s: Option<string>) {
    s.None? || |s.value| == 0
  }

  /** `String.IsNullOrWhiteSpace`. */
  predicate IsNullOrWhiteSpace(s: Option<string>) {
    s.None? || forall i :: 0 <= i < |s.value| ==> IsWhiteSpace(s.value[i])
  }

  /** A non-blank string has a first character and is not empty. */
  lemma NotBlankIsNotEmpty(s: Option<string>)
    requires !IsNullOrWhiteSpace(s)
    ensures !IsNullOrEmpty(s)
  {
  }

  /** Joins `parts` with `sep` between consecutive parts. */
  function Join(parts: seq<string>, sep: char): string
    requires |parts| >= 1
    decreases |parts|
  {
    if |parts| == 1 then parts[0] else parts[0] + [sep] + Join(parts[1..], sep)
  }

  /**
   * `String.Split(sep)`: the maximal pieces between occurrences of `sep`,
   * empty pieces included, so "a..b" gives ["a", "", "b"].
   */
  function Split(s: string, sep: char): (parts: seq<string>)
    ensures |parts| >= 1
    ensures forall i :: 0 <= i < |parts| ==> sep !in parts[i]
    ensures Join(parts, sep) == s
    decreases |s|
  {
    if |s| == 0 then [""]
    else
      var rest := Split(s[1..], sep);
      if s[0] == sep then
        assert s == [sep] + s[1..];
        [""] + rest
      else
        var parts := [[s[0]] + rest[0]] + rest[1..];
        assert parts[1..] == rest[1..];
        assert s == [s[0]] + s[1..];
        parts
  }

  /** Splitting a separator-free string gives back the string itself. */
  lemma {:induction false} SplitNoSeparator(s: string, sep: char)
    requires sep !in s
    ensures Split(s, sep) == [s]
    decreases |s|
  {
    if |s| > 0 {
      assert sep !in s[1..];
      SplitNoSeparator(s[1..], sep);
      assert s == [s[0]] + s[1..];
    }
  }

  /** The inverse direction of `Split`'s round trip: two separator-free pieces joined by `sep` split back into those pieces. */
  lemma {:induction false} SplitOfPair(a: string, b: string, sep: char)
    requires sep !in a && sep !in b
    ensures Split(a + [sep] + b, sep) == [a, b]
    decreases |a|
  {
    var s := a + [sep] + b;
    if |a| == 0 {
      assert s[1..] == b;
      SplitNoSeparator(b, sep);
    } else {
      assert s[1..] == a[1..] + [sep] + b;
      assert sep !in a[1..];
      SplitOfPair(a[1..], b, sep);
      assert [a[0]] + a[1..] == a;
    }
  }

  /** The value of an ASCII digit. */
  function DigitValue(c: char): nat
    requires '0' <= c <= '9'
  {
    c as int - '0' as int
  }

  /** True when `t` opens with a placeholder `{d}` whose index `d` names one of `args`. */
  predicate StartsWithPlaceholder(t: string, args: seq<string>) {
    && |t| >= 3
    && t[0] == '{' && '0' <= t[1] <= '9' && t[2] == '}'
    && DigitValue(t[1]) < |args|
  }

  /**
   * `string.Format(template, args)`, reduced to positional placeholders `{0}` … `{9}`:
   * each is replaced by its argument, and every other character is copied.
   */
  function Format(template: string, args: seq<string>): (r: string)
    // A template without any `{` is its own formatting, whatever the arguments.
    ensures '{' !in template ==> r == template
    // A template that is a single placeholder formats to the argument it names.
    ensures |template| == 3 && StartsWithPlaceholder(template, args) ==> r == args[DigitValue(template[1])]
    // With no arguments no placeholder names one, so every character is copied.
    ensures |args| == 0 ==> r == template
    decreases |template|
  {
    if |template| == 0 then ""
    else if StartsWithPlaceholder(template, args) then
      assert |template| == 3 ==> template[3..] == [];
      args[DigitValue(template[1])] + Format(template[3..], args)
    else
      assert template == [template[0]] + template[1..];
      assert '{' !in template ==> '{' !in template[1..];
      [template[0]] + Format(template[1..], args)
  }

  /** The position at which `x` first occurs in `s`. */
  ghost function FirstIndex<T>(s: seq<T>, x: T): (i: nat)
    requires x in s
    ensures i < |s| && s[i] == x
    ensures forall j :: 0 <= j < i ==> s[j] != x
    decreases |s|
  {
    if s[0] == x then 0 else 1 + FirstIndex(s[1..], x)
  }

  /** `s` without repeated elements, each kept at its first occurrence (`Enumerable.Distinct`). */
  function Distinct<T(==,!new)>(s: seq<T>): (r: seq<T>)
    ensures forall x :: x in r <==> x in s
    ensures forall i, j :: 0 <= i < j < |r| ==> r[i] != r[j]
    ensures |r| <= |s|
    // The kept elements appear in the order of their first occurrences in `s`.
    ensures forall i, j :: 0 <= i < j < |r| ==> FirstIndex(s, r[i]) < FirstIndex(s, r[j])
    decreases |s|
  {
    if |s| == 0 then []
    else
      var init := s[..|s| - 1];
      var front := Distinct(init);
      assert s == init + [s[|s| - 1]];
      FirstIndexOfPrefix(init, s[|s| - 1]);
      if s[|s| - 1] in front then front else front + [s[|s| - 1]]
  }

  /** An element of `init` is first met in `init + [y]` where it is first met in `init`; `y`, when new, is met last. */
  lemma FirstIndexOfPrefix<T>(init: seq<T>, y: T)
    ensures forall x :: x in init ==> FirstIndex(init + [y], x) == FirstIndex(init, x)
    ensures y !in init ==> FirstIndex(init + [y], y) == |init|
  {
    var s := init + [y];
    forall x | x in init
      ensures FirstIndex(s, x) == FirstIndex(init, x)
    {
      var a, b := FirstIndex(s, x), FirstIndex(init, x);
      assert s[b] == x;
    }
  }
}
