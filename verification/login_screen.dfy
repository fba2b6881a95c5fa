/**
 * The login form: per-field checks (a loose, unanchored email pattern and a four-character password minimum),
 * typing that clears a shown error, and submission that reports exactly the failing fields.
 */
module LoginScreen {
  import opened Options
  import opened Text
  import opened AuthTypes
  import Validation

  datatype LoginField = EmailField | PasswordField

  /** The errors state; a key may hold "" after typing cleared it. */
  type LoginErrors = map<LoginField, string>

  /** An error is shown when its key holds a non-empty message. */
  predicate Shown(errors: LoginErrors, f: LoginField) { f in errors && errors[f] != "" }

  /** `/\S+@\S+\.\S+/` matches around '@' at `at` and '.' at `dot`: one non-space before the '@', non-spaces up
      to the '.', and one non-space after it suffice for the unanchored search. */
  predicate LooseEmailAt(s: string, at: int, dot: int) {
    && 0 < at && at + 1 < dot && dot + 1 < |s|
    && !IsSpace(s[at - 1]) && s[at] == '@'
    && (forall k | at < k < dot :: !IsSpace(s[k]))
    && s[dot] == '.' && !IsSpace(s[dot + 1])
  }

  predicate LooseEmail(s: string) {
    exists at, dot | 0 <= at < dot < |s| :: LooseEmailAt(s, at, dot)
  }

  function Get(form: LoginFormData, f: LoginField): string {
    match f
    case EmailField => form.email
    case PasswordField => form.password
  }

  /** When a field's value passes its check. */
  predicate FieldValid(f: LoginField, value: string) {
    match f
    case EmailField => value != "" && LooseEmail(value)
    case PasswordField => Utf16Length(value) >= 4
  }

  /** `validateField`: the message of the first failing check, or "". */
  function ValidateField(f: LoginField, value: string): (r: string)
    ensures r == "" <==> FieldValid(f, value)
    ensures value == "" ==> r == (if f == EmailField then "Email is required" else "Password is required")
    ensures f == EmailField && value != "" && r != "" ==> r == "Please enter a valid email"
    ensures f == PasswordField && value != "" && r != "" ==> r == "Password must be at least 4 characters"
  {
    match f
    case EmailField =>
      if value == "" then "Email is required"
      else if !LooseEmail(value) then "Please enter a valid email"
      else ""
    case PasswordField =>
      if value == "" then "Password is required"
      else if Utf16Length(value) < 4 then "Password must be at least 4 characters"
      else ""
  }

  /** The four-character minimum counts UTF-16 code units: two emoji pass, three ASCII letters do not. */
  lemma PasswordMinimumCountsCodeUnits()
    ensures FieldValid(PasswordField, "\U{1F600}\U{1F600}") && !FieldValid(PasswordField, "abc")
  {
    assert "\U{1F600}\U{1F600}"[1..] == "\U{1F600}";
  }

  /** Every address the shared strict validator accepts also passes the login form's pattern. */
  lemma StrictEmailPassesLoose(s: string)
    requires Validation.IsValidEmail(s)
    ensures FieldValid(EmailField, s)
  {
    var at, dot :| 0 <= at < dot < |s| && Validation.EmailSplitAt(s, at, dot);
    assert s[at - 1] == s[..at][at - 1];
    forall k | at < k < dot ensures !IsSpace(s[k]) {
      assert s[k] == s[at + 1..dot][k - at - 1];
    }
    assert s[dot + 1] == s[dot + 1..][0];
    assert LooseEmailAt(s, at, dot);
  }

  /** The converse fails: the login pattern is unanchored, so text around an address passes. */
  lemma LooseIsWeaker()
    ensures FieldValid(EmailField, "x y@z.w") && !Validation.IsValidEmail("x y@z.w")
  {
    var s := "x y@z.w";
    assert LooseEmailAt(s, 3, 5);
    Validation.EmailShapeIff(s);
    assert IsSpace(s[1]);
  }

  datatype LoginState = LoginState(form: LoginFormData, errors: LoginErrors)

  const InitialLogin := LoginState(LoginFormData("", ""), map[])

  function Set(form: LoginFormData, f: LoginField, value: string): LoginFormData {
    match f
    case EmailField => form.(email := value)
    case PasswordField => form.(password := value)
  }

  /** `handleInputChange`: stores the value; a shown error of that field is blanked, nothing else changes. */
  function HandleInputChange(st: LoginState, f: LoginField, value: string): (r: LoginState)
    ensures Get(r.form, f) == value
    ensures forall g :: g != f ==> Get(r.form, g) == Get(st.form, g)
    ensures !Shown(r.errors, f)
    ensures forall g :: g != f ==> (g in r.errors <==> g in st.errors) && (g in r.errors ==> r.errors[g] == st.errors[g])
    ensures !Shown(st.errors, f) ==> r.errors == st.errors
  {
    var errors := if Shown(st.errors, f) then st.errors[f := ""] else st.errors;
    LoginState(Set(st.form, f, value), errors)
  }

  /** What submitting does: the new errors, and the form handed to `onLogin` if any. */
  datatype SubmitResult = SubmitResult(errors: LoginErrors, login: Option<LoginFormData>)

  function Record(errors: LoginErrors, f: LoginField, message: string): LoginErrors {
    if message != "" then errors[f := message] else errors
  }

  /** `handleSubmit`: validates both fields; the form is submitted iff neither fails. */
  function HandleSubmit(form: LoginFormData): (r: SubmitResult)
    ensures forall f :: f in r.errors <==> !FieldValid(f, Get(form, f))
    ensures forall f | f in r.errors :: r.errors[f] == ValidateField(f, Get(form, f)) && Shown(r.errors, f)
    ensures r.login.Some? <==> FieldValid(EmailField, form.email) && FieldValid(PasswordField, form.password)
    ensures r.login.Some? ==> r.login.value == form
  {
    var e1 := Record(map[], EmailField, ValidateField(EmailField, form.email));
    var errors := Record(e1, PasswordField, ValidateField(PasswordField, form.password));
    if errors == map[] then
      assert EmailField !in errors && PasswordField !in errors;
      SubmitResult(errors, Some(form))
    else
      assert EmailField in errors || PasswordField in errors;
      SubmitResult(errors, None)
  }
}
