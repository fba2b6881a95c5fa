/**
 * The field validators of the shared validation utilities: regular expressions become explicit
 * character-class predicates over the string.
 */
module Validation {
  import opened Options
  import opened Text

  /** `value.trim().length > 0`. */
  function IsRequired(value: string): (r: bool)
    ensures r <==> exists i | 0 <= i < |value| :: !IsSpace(value[i])
  {
    |Trim(value)| > 0
  }

  /** `value.length >= minLength`; `length` counts UTF-16 code units. */
  function HasMinLength(value: string, minLength: int): bool {
    Utf16Length(value) >= minLength
  }

  /** `value.length <= maxLength`. */
  function HasMaxLength(value: string, maxLength: int): bool {
    Utf16Length(value) <= maxLength
  }

  /** Both length bounds are inclusive. */
  lemma LengthBoundsInclusive(value: string, minLength: int, maxLength: int)
    ensures HasMinLength(value, minLength) && HasMaxLength(value, maxLength) <==> minLength <= Utf16Length(value) <= maxLength
    ensures HasMinLength(value, Utf16Length(value)) && HasMaxLength(value, Utf16Length(value))
    ensures !HasMinLength(value, Utf16Length(value) + 1) && !HasMaxLength(value, Utf16Length(value) - 1)
  {
  }

  /** Each character is one or two code units, so the length lies between the character count and twice it. */
  lemma LengthBetweenCharsAndTwice(value: string)
    ensures HasMinLength(value, |value|) && HasMaxLength(value, 2 * |value|)
    ensures HasMaxLength(value, |value|) <==> !SomeChar(value, IsAstral)
  {
  }

  /** `[^\s@]` */
  predicate EmailPartChar(c: char) { !IsSpace(c) && c != '@' }

  /** The three runs of `/^[^\s@]+@[^\s@]+\.[^\s@]+$/` split at indices `at` ('@') and `dot` ('.'). */
  predicate EmailSplitAt(email: string, at: int, dot: int) {
    && 0 < at && at + 1 < dot && dot + 1 < |email|
    && AllChars(email[..at], EmailPartChar)
    && email[at] == '@'
    && AllChars(email[at + 1..dot], EmailPartChar)
    && email[dot] == '.'
    && AllChars(email[dot + 1..], EmailPartChar)
  }

  /** `/^[^\s@]+@[^\s@]+\.[^\s@]+$/.test(email)`: some split of the string matches the three runs. */
  predicate IsValidEmail(email: string) {
    exists at, dot | 0 <= at < dot < |email| :: EmailSplitAt(email, at, dot)
  }

  /** The email shape stated without the pattern: no whitespace, exactly one '@' with a non-empty local part,
      and a '.' in the domain with text on both sides. */
  ghost predicate EmailShape(email: string) {
    && (forall k | 0 <= k < |email| :: !IsSpace(email[k]))
    && exists at | 0 < at < |email| :: && email[at] == '@'
                                        && (forall k | 0 <= k < |email| && k != at :: email[k] != '@')
                                        && exists dot | at + 1 < dot < |email| - 1 :: email[dot] == '.'
  }

  lemma EmailShapeIff(email: string)
    ensures IsValidEmail(email) <==> EmailShape(email)
  {
    if IsValidEmail(email) {
      var at, dot :| 0 <= at < dot < |email| && EmailSplitAt(email, at, dot);
      forall k | 0 <= k < |email| ensures !IsSpace(email[k]) && (k != at ==> email[k] != '@') {
        if k < at {
          assert email[k] == email[..at][k];
        } else if at < k < dot {
          assert email[k] == email[at + 1..dot][k - at - 1];
        } else if k > dot {
          assert email[k] == email[dot + 1..][k - dot - 1];
        }
      }
      assert email[dot] == '.';
    }
    if EmailShape(email) {
      var at :| 0 < at < |email| && email[at] == '@'
                && (forall k | 0 <= k < |email| && k != at :: email[k] != '@')
                && exists dot | at + 1 < dot < |email| - 1 :: email[dot] == '.';
      var dot :| at + 1 < dot < |email| - 1 && email[dot] == '.';
      assert forall k | 0 <= k < at :: email[..at][k] == email[k];
      assert EmailSplitAt(email, at, dot);
    }
  }

  /** `[a-zA-Z\d@$!%*?&]` */
  predicate PasswordChar(c: char) {
    IsLetter(c) || IsDigit(c) || c == '@' || c == '$' || c == '!' || c == '%' || c == '*' || c == '?' || c == '&'
  }

  /** `/^(?=.*[a-z])(?=.*[A-Z])(?=.*\d)[a-zA-Z\d@$!%*?&]{8,}$/.test(password)`. The look-aheads' `.` stops at
      line terminators, none of which the main class admits, so each look-ahead is "some character". */
  predicate IsValidPassword(password: string) {
    && |password| >= 8
    && SomeChar(password, IsLower)
    && SomeChar(password, IsUpper)
    && SomeChar(password, IsDigit)
    && AllChars(password, PasswordChar)
  }

  /** A single left-to-right scan that decides the password pattern. */
  method CheckPassword(password: string) returns (ok: bool)
    ensures ok <==> IsValidPassword(password)
  {
    var lower, upper, digit, allowed := false, false, false, true;
    var i := 0;
    while i < |password|
      invariant 0 <= i <= |password|
      invariant lower <==> SomeChar(password[..i], IsLower)
      invariant upper <==> SomeChar(password[..i], IsUpper)
      invariant digit <==> SomeChar(password[..i], IsDigit)
      invariant allowed <==> AllChars(password[..i], PasswordChar)
    {
      var c := password[i];
      assert password[..i + 1] == password[..i] + [c];
      lower := lower || IsLower(c);
      upper := upper || IsUpper(c);
      digit := digit || IsDigit(c);
      allowed := allowed && PasswordChar(c);
      i := i + 1;
    }
    assert password[..i] == password;
    ok := |password| >= 8 && lower && upper && digit && allowed;
  }

  /** `[1-9]\d{0,15}`: a non-zero digit followed by at most fifteen digits. */
  predicate PhoneDigits(t: string) {
    1 <= |t| <= 16 && IsNonZeroDigit(t[0]) && AllChars(t[1..], IsDigit)
  }

  /** `/^[+]?[1-9][\d]{0,15}$/.test(phone.replace(/\s/g, ''))`. */
  predicate IsValidPhone(phone: string) {
    var t := RemoveSpaces(phone);
    PhoneDigits(t) || (|t| > 0 && t[0] == '+' && PhoneDigits(t[1..]))
  }

  /** Whitespace anywhere in a phone number is irrelevant to its validity. */
  lemma PhoneIgnoresSpace(a: string, c: char, b: string)
    requires IsSpace(c)
    ensures IsValidPhone(a + [c] + b) <==> IsValidPhone(a + b)
  {
    RemoveSpacesConcat(a + [c], b);
    RemoveSpacesConcat(a, [c]);
    RemoveSpacesConcat(a, b);
    assert [c][1..] == [];
    assert RemoveSpaces([c]) == "";
    assert RemoveSpaces(a + [c] + b) == RemoveSpaces(a + b);
  }

  /** A phone number is accepted exactly when, spaces removed, it is 1 to 16 digits with a non-zero first digit,
      optionally preceded by '+'. */
  lemma PhoneShape(phone: string)
    ensures var t := RemoveSpaces(phone);
            IsValidPhone(phone) <==>
              || (1 <= |t| <= 16 && IsNonZeroDigit(t[0]) && forall i | 1 <= i < |t| :: IsDigit(t[i]))
              || (2 <= |t| <= 17 && t[0] == '+' && IsNonZeroDigit(t[1]) && forall i | 2 <= i < |t| :: IsDigit(t[i]))
  {
    var t := RemoveSpaces(phone);
    if |t| >= 1 {
      assert forall i | 1 <= i < |t| :: t[1..][i - 1] == t[i];
      assert AllChars(t[1..], IsDigit) <==> forall i | 1 <= i < |t| :: IsDigit(t[i]);
    }
    if |t| >= 2 {
      assert t[1..][0] == t[1];
      assert forall i | 2 <= i < |t| :: t[1..][1..][i - 2] == t[i];
      assert AllChars(t[1..][1..], IsDigit) <==> forall i | 2 <= i < |t| :: IsDigit(t[i]);
    }
  }

  /** The message table of `getErrorMessage`. */
  const ErrorMessages: map<string, map<string, string>> := map[
    "email" := map["required" := "Email is required", "invalid" := "Please enter a valid email address"],
    "password" := map[
      "required" := "Password is required",
      "invalid" := "Password must be at least 8 characters with uppercase, lowercase, and number",
      "minLength" := "Password must be at least 8 characters"],
    "required" := map["required" := "This field is required"]]

  /** The (field, type) pairs that have their own message. */
  const KnownMessageKeys: set<(string, string)> := {
    ("email", "required"), ("email", "invalid"),
    ("password", "required"), ("password", "invalid"), ("password", "minLength"),
    ("required", "required")}

  /** `messages[field]?.[type] || 'Invalid input'`. */
  function GetErrorMessage(field: string, kind: string): (r: string)
    ensures r != ""
    ensures r == "Invalid input" <==> (field, kind) !in KnownMessageKeys
    ensures (field, kind) in KnownMessageKeys ==>
              field in ErrorMessages && kind in ErrorMessages[field] && r == ErrorMessages[field][kind]
    ensures field == "email" && kind == "required" ==> r == "Email is required"
  {
    if field in ErrorMessages && kind in ErrorMessages[field] && ErrorMessages[field][kind] != "" then
      ErrorMessages[field][kind]
    else
      "Invalid input"
  }

  /** `if (value && !/^\d+$/.test(value))`: the empty value and all-digit values pass. */
  function ValidateClaimNumber(value: string): (r: Option<string>)
    ensures r.None? <==> AllChars(value, IsDigit)
    ensures r.Some? ==> r.value == "Claim number must contain only numbers"
  {
    if value != "" && !(|value| >= 1 && AllChars(value, IsDigit)) then
      Some("Claim number must contain only numbers")
    else
      None
  }

  /** `if (value && !/^[a-zA-Z0-9]+$/.test(value))`. */
  function ValidatePolicyNumber(value: string): (r: Option<string>)
    ensures r.None? <==> AllChars(value, IsAlphanumeric)
    ensures r.Some? ==> r.value == "Policy number must contain only letters and numbers"
  {
    if value != "" && !(|value| >= 1 && AllChars(value, IsAlphanumeric)) then
      Some("Policy number must contain only letters and numbers")
    else
      None
  }

  /** `[a-zA-Z\s]` */
  predicate NameChar(c: char) { IsLetter(c) || IsSpace(c) }

  /** `if (value && !/^[a-zA-Z\s]+$/.test(value))`. */
  function ValidatePatientName(value: string): (r: Option<string>)
    ensures r.None? <==> AllChars(value, NameChar)
    ensures r.Some? ==> r.value == "Patient name must contain only letters and spaces"
  {
    if value != "" && !(|value| >= 1 && AllChars(value, NameChar)) then
      Some("Patient name must contain only letters and spaces")
    else
      None
  }
}
