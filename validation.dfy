/**
 * The request validator: express-validator chains `body(f).trim().notEmpty()` and
 * `body(f).trim().isLength({ min: 6 })`. `trim()` is a sanitizer, so the trimmed value
 * replaces the field and is what the handlers see afterwards; the validators that follow
 * in the chain test the trimmed value.
 */
module Validation {

  /** JavaScript's `\s` class (WhiteSpace and LineTerminator), which validator.js's trim strips. */
  predicate IsSpace(c: char) {
    || c == '\t' || c == '\n' || c == '\U{000B}' || c == '\U{000C}' || c == '\r' || c == ' '
    || c == '\U{00A0}' || c == '\U{1680}' || ('\U{2000}' <= c <= '\U{200A}')
    || c == '\U{2028}' || c == '\U{2029}' || c == '\U{202F}' || c == '\U{205F}'
    || c == '\U{3000}' || c == '\U{FEFF}'
  }

  predicate AllSpace(s: string) {
    forall i :: 0 <= i < |s| ==> IsSpace(s[i])
  }

  /** The length of the leading run of whitespace, which validator.js's `ltrim` removes. */
  function LeadingSpaces(s: string): (k: nat)
    ensures k <= |s|
    ensures forall i :: 0 <= i < k ==> IsSpace(s[i])
    ensures k < |s| ==> !IsSpace(s[k])
  {
    if s != [] && IsSpace(s[0]) then 1 + LeadingSpaces(s[1..]) else 0
  }

  /** Where the trailing run of whitespace starts, which validator.js's `rtrim` removes. */
  function ContentEnd(s: string): (m: nat)
    ensures m <= |s|
    ensures forall i :: m <= i < |s| ==> IsSpace(s[i])
    ensures 0 < m ==> !IsSpace(s[m - 1])
  {
    if s != [] && IsSpace(s[|s| - 1]) then ContentEnd(s[..|s| - 1]) else |s|
  }

  /** validator.js `ltrim` with its default character class. */
  function TrimStart(s: string): string {
    s[LeadingSpaces(s)..]
  }

  /** validator.js `rtrim` with its default character class. */
  function TrimEnd(s: string): string {
    s[..ContentEnd(s)]
  }

  /** `r` is the slice of `s` starting at `a`, with only whitespace before and after it. */
  predicate Surrounds(s: string, a: int, r: string) {
    && 0 <= a <= |s| - |r|
    && r == s[a..a + |r|]
    && AllSpace(s[..a]) && AllSpace(s[a + |r|..])
  }

  /** validator.js `trim` = `rtrim(ltrim(s))`, the sanitizer behind express-validator's `.trim()`. */
  function Trim(s: string): (r: string)
    ensures r == [] <==> AllSpace(s)
    ensures r == [] || (!IsSpace(r[0]) && !IsSpace(r[|r| - 1]))
    ensures Surrounds(s, LeadingSpaces(s), r)
  {
    var k := LeadingSpaces(s);
    var t := s[k..];
    var m := ContentEnd(t);
    assert t[..m] == s[k..k + m];
    assert AllSpace(s[..k]) by {
      assert forall i :: 0 <= i < k ==> s[..k][i] == s[i];
    }
    assert AllSpace(s[k + m..]) by {
      var tail := s[k + m..];
      assert forall i :: 0 <= i < |tail| ==> tail[i] == t[m + i];
    }
    // the content, when empty, starts at the end: a non-space at `k` would end it
    assert m == 0 ==> k == |s| && s[..k] == s;
    assert m > 0 ==> !IsSpace(s[k + m - 1]) && !AllSpace(s);
    TrimEnd(TrimStart(s))
  }

  /** The variation selectors U+FE0E and U+FE0F, which validator.js's `isLength` does not count. */
  predicate IsVariationSelector(c: char) {
    c == '\U{FE0E}' || c == '\U{FE0F}'
  }

  /**
   * validator.js `isLength` measures a string as its UTF-16 length minus its surrogate pairs
   * minus its variation selectors: one per code point, variation selectors excluded.
   */
  function Length(s: string): (n: nat)
    ensures n <= |s|
    ensures n == |s| <==> forall i :: 0 <= i < |s| ==> !IsVariationSelector(s[i])
    ensures |s| == 1 ==> n == (if IsVariationSelector(s[0]) then 0 else 1)
  {
    if s == [] then 0
    else (if IsVariationSelector(s[0]) then 0 else 1) + Length(s[1..])
  }

  /** The measure of a concatenation is the sum of the measures: one per character, selectors excluded. */
  lemma {:induction false} LengthAppend(a: string, b: string)
    ensures Length(a + b) == Length(a) + Length(b)
  {
    if a == [] {
      assert a + b == b;
    } else {
      assert (a + b)[1..] == a[1..] + b;
      LengthAppend(a[1..], b);
    }
  }

  const MinPasswordLength: nat := 6

  /** The two body fields the validators inspect. */
  datatype Field = Username | Password {
    /** The field's name in the JSON body and in the error's `path`. */
    function Name(): string {
      match this
      case Username => "username"
      case Password => "password"
    }
  }

  /** One entry of `validationResult(req).array()`; its location is always `body`. */
  datatype FieldError = FieldError(path: Field, value: string, msg: string)

  /** express-validator's default message for a failed standard validator. */
  const InvalidValue := "Invalid value"

  /** The error for field `path` whose sanitized value failed its validator. */
  function Invalid(path: Field, value: string): FieldError {
    FieldError(path, value, InvalidValue)
  }

  /** Rules of `/api/login`: both trimmed fields must be non-empty. */
  function LoginErrors(username: string, password: string): (errs: seq<FieldError>)
    ensures errs == [] <==> !AllSpace(username) && !AllSpace(password)
    ensures Invalid(Username, "") in errs <==> AllSpace(username)
    ensures Invalid(Password, "") in errs <==> AllSpace(password)
    ensures forall e :: e in errs ==> e.msg == InvalidValue
    // at most one entry per field, the username's first, and none for a field that passes
    ensures errs == (if AllSpace(username) then [Invalid(Username, "")] else [])
                    + (if AllSpace(password) then [Invalid(Password, "")] else [])
  {
    var u, p := Trim(username), Trim(password);
    (if u == [] then [Invalid(Username, u)] else [])
    + (if p == [] then [Invalid(Password, p)] else [])
  }

  /** Rules of `/api/signup`: a non-empty trimmed username and a trimmed password of length at least 6. */
  function SignupErrors(username: string, password: string): (errs: seq<FieldError>)
    ensures errs == [] <==> !AllSpace(username) && Length(Trim(password)) >= MinPasswordLength
    ensures Invalid(Username, "") in errs <==> AllSpace(username)
    ensures Invalid(Password, Trim(password)) in errs <==> Length(Trim(password)) < MinPasswordLength
    ensures forall e :: e in errs ==> e.msg == InvalidValue
    // at most one entry per field, the username's first, and none for a field that passes
    ensures errs == (if AllSpace(username) then [Invalid(Username, "")] else [])
                    + (if Length(Trim(password)) < MinPasswordLength then [Invalid(Password, Trim(password))] else [])
  {
    var u, p := Trim(username), Trim(password);
    (if u == [] then [Invalid(Username, u)] else [])
    + (if Length(p) < MinPasswordLength then [Invalid(Password, p)] else [])
  }
}
