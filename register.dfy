/** The registration form: per-field validation into an error map, and the
    submit sequence that calls the register API only on valid input. */
module Register {
  import opened Common

  /** The characters modelled as JavaScript white space: both `trim` and the
      regular-expression class `\S` use this one set. */
  const WhiteSpaceChars: set<char> :=
    {' ', '\t', '\n', '\r', '\U{000B}', '\U{000C}', '\U{00A0}', '\U{2028}', '\U{2029}', '\U{FEFF}'}

  predicate IsWhiteSpace(c: char)
  {
    c in WhiteSpaceChars
  }

  /** Every character of `s[lo..hi]` is a `\S` character. */
  predicate NonSpaceRun(s: string, lo: int, hi: int)
    requires 0 <= lo <= hi <= |s|
  {
    forall i :: lo <= i < hi ==> !IsWhiteSpace(s[i])
  }

  /** A string that is empty or white space only. */
  predicate Blank(s: string)
  {
    forall i :: 0 <= i < |s| ==> IsWhiteSpace(s[i])
  }

  /** `s` with its leading white space removed. */
  function TrimStart(s: string): string
  {
    if s != [] && IsWhiteSpace(s[0]) then TrimStart(s[1..]) else s
  }

  /** `TrimStart` drops a white-space prefix and keeps a suffix of `s` that
      is empty or starts with a non-space character. */
  lemma {:induction false} TrimStartSpec(s: string)
    ensures var r := TrimStart(s);
      && |r| <= |s| && r == s[|s| - |r|..]
      && (forall i :: 0 <= i < |s| - |r| ==> IsWhiteSpace(s[i]))
      && (r != [] ==> !IsWhiteSpace(r[0]))
  {
    if s != [] && IsWhiteSpace(s[0]) {
      var t := s[1..];
      TrimStartSpec(t);
      var r := TrimStart(t);
      assert TrimStart(s) == r;
      assert t[|t| - |r|..] == s[|s| - |r|..];
      forall i | 0 <= i < |s| - |r| ensures IsWhiteSpace(s[i]) {
        if i > 0 {
          assert s[i] == t[i - 1];
        }
      }
    }
  }

  /** `s` with its trailing white space removed. */
  function TrimEnd(s: string): string
  {
    if s != [] && IsWhiteSpace(s[|s| - 1]) then TrimEnd(s[..|s| - 1]) else s
  }

  /** `TrimEnd` drops a white-space suffix and keeps a prefix of `s` that is
      empty or ends with a non-space character. */
  lemma {:induction false} TrimEndSpec(s: string)
    ensures var r := TrimEnd(s);
      && |r| <= |s| && r == s[..|r|]
      && (forall i :: |r| <= i < |s| ==> IsWhiteSpace(s[i]))
      && (r != [] ==> !IsWhiteSpace(r[|r| - 1]))
  {
    if s != [] && IsWhiteSpace(s[|s| - 1]) {
      TrimEndSpec(s[..|s| - 1]);
    }
  }

  /** `String.prototype.trim`. */
  function Trim(s: string): string
  {
    TrimEnd(TrimStart(s))
  }

  /** `!s.trim()` holds exactly for blank strings. */
  lemma TrimEmptyIffBlank(s: string)
    ensures Trim(s) == [] <==> Blank(s)
  {
    var t := TrimStart(s);
    TrimStartSpec(s);
    TrimEndSpec(t);
    if Trim(s) == [] {
      forall i | 0 <= i < |s| ensures IsWhiteSpace(s[i]) {
        assert i < |s| - |t|;
      }
    } else {
      var r := Trim(s);
      assert r == t[..|r|] && t == s[|s| - |t|..];
      assert !IsWhiteSpace(s[|s| - |t|]);
    }
  }

  /** One match of the unanchored `\S+@\S+\.\S+` in `s`: a non-empty `\S` run
      `s[p..at]`, then "@" at `at`, a non-empty `\S` run up to `dot`, "." at
      `dot`, and a non-empty `\S` run `s[dot+1..e]`. */
  predicate EmailMatchAt(s: string, p: int, at: int, dot: int, e: int)
  {
    && 0 <= p < at
    && at + 1 < dot
    && dot + 1 < e <= |s|
    && s[at] == '@' && s[dot] == '.'
    && NonSpaceRun(s, p, at)
    && NonSpaceRun(s, at + 1, dot)
    && NonSpaceRun(s, dot + 1, e)
  }

  /** `/\S+@\S+\.\S+/.test(s)`. */
  ghost predicate MatchesEmailPattern(s: string)
  {
    exists p, at, dot, e :: EmailMatchAt(s, p, at, dot, e)
  }

  /** The shortest match around an "@" at `at` and a "." at `dot`: one `\S`
      character on each outer side. */
  predicate ShortMatchAt(s: string, at: int, dot: int)
  {
    && 1 <= at && at + 1 < dot && dot + 1 < |s|
    && s[at] == '@' && s[dot] == '.'
    && !IsWhiteSpace(s[at - 1])
    && NonSpaceRun(s, at + 1, dot)
    && !IsWhiteSpace(s[dot + 1])
  }

  /** Scanning for the ".": some position from `dot` on closes a shortest
      match opened by the "@" at `at`. */
  predicate DotFrom(s: string, at: int, dot: nat)
    decreases |s| - dot
  {
    dot < |s| && (ShortMatchAt(s, at, dot) || DotFrom(s, at, dot + 1))
  }

  /** Scanning for the "@": some position from `at` on opens a shortest
      match. */
  predicate AtSignFrom(s: string, at: nat)
    decreases |s| - at
  {
    at < |s| && (DotFrom(s, at, 0) || AtSignFrom(s, at + 1))
  }

  /** The test the form runs: a left-to-right scan for an "@" and a later "."
      that delimit a shortest match. */
  predicate HasEmailFormat(s: string)
  {
    AtSignFrom(s, 0)
  }

  lemma {:induction false} DotFromIff(s: string, at: int, dot: nat)
    decreases |s| - dot
    ensures DotFrom(s, at, dot) <==> exists d :: dot <= d < |s| && ShortMatchAt(s, at, d)
  {
    if dot < |s| {
      DotFromIff(s, at, dot + 1);
      if d :| dot <= d < |s| && ShortMatchAt(s, at, d) {
        if d != dot {
          assert dot + 1 <= d;
        }
      }
    }
  }

  lemma {:induction false} AtSignFromIff(s: string, at: nat)
    decreases |s| - at
    ensures AtSignFrom(s, at) <==> exists a, d :: at <= a < |s| && 0 <= d < |s| && ShortMatchAt(s, a, d)
  {
    if at < |s| {
      AtSignFromIff(s, at + 1);
      DotFromIff(s, at, 0);
      if a, d :| at <= a < |s| && 0 <= d < |s| && ShortMatchAt(s, a, d) {
        if a != at {
          assert at + 1 <= a;
        }
      }
    }
  }

  /** The scan accepts exactly the strings in which the regular expression
      finds a match. */
  lemma HasEmailFormatIffPattern(s: string)
    ensures HasEmailFormat(s) <==> MatchesEmailPattern(s)
  {
    AtSignFromIff(s, 0);
    if HasEmailFormat(s) {
      var at, dot :| 0 <= at < |s| && 0 <= dot < |s| && ShortMatchAt(s, at, dot);
      assert EmailMatchAt(s, at - 1, at, dot, dot + 2);
    }
    if MatchesEmailPattern(s) {
      var p, at, dot, e :| EmailMatchAt(s, p, at, dot, e);
      assert !IsWhiteSpace(s[at - 1]);
      assert !IsWhiteSpace(s[dot + 1]);
      assert ShortMatchAt(s, at, dot);
    }
  }

  datatype FormData = FormData(name: string, email: string, password: string)

  /** The `{ name?, email?, password? }` error object: `None` is an absent key. */
  datatype FieldErrors = FieldErrors(name: Option<string>, email: Option<string>, password: Option<string>)

  const NoErrors: FieldErrors := FieldErrors(None, None, None)

  const NameRequired: string := "Nama harus diisi"
  const EmailRequired: string := "Email harus diisi"
  const EmailInvalid: string := "Format email tidak valid"
  const PasswordTooShort: string := "Password harus diisi dan minimal 6 karakter"
  const RegistrationFailed: string := "Pendaftaran gagal"
  const MinPasswordLength: int := 6

  /** `s.length`: JavaScript counts UTF-16 code units, two for a character
      above U+FFFF (a surrogate pair) and one for any other. */
  function Utf16Length(s: string): nat
  {
    if s == [] then 0 else (if s[0] as int > 0xFFFF then 2 else 1) + Utf16Length(s[1..])
  }

  /** The code-unit length lies between the character count and twice it, and
      equals the character count exactly when no character is above U+FFFF. */
  lemma {:induction false} Utf16LengthBounds(s: string)
    ensures |s| <= Utf16Length(s) <= 2 * |s|
    ensures Utf16Length(s) == |s| <==> forall i :: 0 <= i < |s| ==> s[i] as int <= 0xFFFF
  {
    if s != [] {
      Utf16LengthBounds(s[1..]);
      if Utf16Length(s) == |s| {
        forall i | 0 <= i < |s| ensures s[i] as int <= 0xFFFF {
          if i > 0 {
            assert s[i] == s[1..][i - 1];
          }
        }
      }
      if forall i :: 0 <= i < |s| ==> s[i] as int <= 0xFFFF {
        assert forall i :: 0 <= i < |s[1..]| ==> s[1..][i] == s[i + 1];
      }
    }
  }

  /** The `name` key of the error object. */
  function NameError(name: string): Option<string>
  {
    if Trim(name) == "" then Some(NameRequired) else None
  }

  /** The `email` key: "required" for a blank email, else "format". */
  function EmailError(email: string): Option<string>
  {
    if Trim(email) == "" then Some(EmailRequired)
    else if !HasEmailFormat(email) then Some(EmailInvalid)
    else None
  }

  /** The `password` key: the password itself is not trimmed. */
  function PasswordError(password: string): Option<string>
  {
    if password == "" || Utf16Length(password) < MinPasswordLength then Some(PasswordTooShort) else None
  }

  /** The error object `validateForm` builds, field by field. */
  function Validate(f: FormData): FieldErrors
  {
    FieldErrors(NameError(f.name), EmailError(f.email), PasswordError(f.password))
  }

  /** A name error exactly for a blank name; for a blank email the "required"
      error, otherwise the "format" error exactly when the untrimmed email has
      no match of `\S+@\S+\.\S+`; a password error exactly for fewer than six
      UTF-16 code units (the password is not trimmed). */
  lemma ValidateSpec(f: FormData)
    ensures var e := Validate(f);
      && e.name == (if Blank(f.name) then Some(NameRequired) else None)
      && e.email == (if Blank(f.email) then Some(EmailRequired)
                     else if !MatchesEmailPattern(f.email) then Some(EmailInvalid)
                     else None)
      && e.password == (if Utf16Length(f.password) < MinPasswordLength then Some(PasswordTooShort) else None)
  {
    TrimEmptyIffBlank(f.name);
    TrimEmptyIffBlank(f.email);
    HasEmailFormatIffPattern(f.email);
  }

  /** Three characters above U+FFFF are six code units: long enough, although
      a five-letter password is not. */
  lemma PasswordLengthInCodeUnits()
    ensures PasswordError("\U{1F600}\U{1F600}\U{1F600}") == None
    ensures PasswordError("abcde") == Some(PasswordTooShort)
  {
    assert "\U{1F600}\U{1F600}\U{1F600}"[1..] == "\U{1F600}\U{1F600}";
    assert "\U{1F600}\U{1F600}"[1..] == "\U{1F600}";
    assert "abcde"[1..] == "bcde" && "bcde"[1..] == "cde" && "cde"[1..] == "de" && "de"[1..] == "e";
  }

  /** `Object.keys(errors).length`. */
  function KeyCount(e: FieldErrors): nat
  {
    (if e.name.Some? then 1 else 0) + (if e.email.Some? then 1 else 0) + (if e.password.Some? then 1 else 0)
  }

  /** The form is valid (no error keys) exactly when the name is not blank,
      the email is not blank and matches the pattern, and the password has at
      least six UTF-16 code units. */
  lemma ValidIffAllFieldsPass(f: FormData)
    ensures KeyCount(Validate(f)) == 0 <==>
      !Blank(f.name) && !Blank(f.email) && MatchesEmailPattern(f.email) && Utf16Length(f.password) >= MinPasswordLength
  {
    ValidateSpec(f);
  }

  /** The payload of a successful `register` call that the page reads. */
  datatype AuthResponse = AuthResponse(token: string)

  /** The message a failed registration shows: the error's message, or the
      fallback text when that is empty. */
  function FailureMessage(message: string): (shown: string)
    ensures shown != ""
    ensures message != "" ==> shown == message
    ensures message == "" ==> shown == RegistrationFailed
  {
    if message != "" then message else RegistrationFailed
  }

  /** The page state: the form fields, the error object, `generalError`,
      `loading`, the `token` entry of browser storage, the last navigation,
      and the `register` calls made so far. */
  class RegisterPage {
    var form: FormData
    var errors: FieldErrors
    var generalError: Option<string>
    var loading: bool
    var storedToken: Option<string>
    var navigatedTo: Option<Route>
    var registerCalls: seq<FormData>

    constructor (token: Option<string>)
      ensures form == FormData("", "", "") && errors == NoErrors && generalError == None
      ensures !loading && storedToken == token && navigatedTo == None && registerCalls == []
    {
      form := FormData("", "", "");
      errors := NoErrors;
      generalError := None;
      loading := false;
      storedToken := token;
      navigatedTo := None;
      registerCalls := [];
    }

    /** The inputs' `onChange`: replace one field. */
    method SetName(v: string)
      modifies this`form
      ensures form == old(form).(name := v)
    {
      form := form.(name := v);
    }

    method SetEmail(v: string)
      modifies this`form
      ensures form == old(form).(email := v)
    {
      form := form.(email := v);
    }

    method SetPassword(v: string)
      modifies this`form
      ensures form == old(form).(password := v)
    {
      form := form.(password := v);
    }

    /** `validateForm`: clears `generalError`, stores the error object, and
        reports whether it has no keys. */
    method ValidateForm() returns (ok: bool)
      modifies this`errors, this`generalError
      ensures generalError == None
      ensures errors == Validate(form)
      ensures ok <==> KeyCount(errors) == 0
    {
      var newErrors := NoErrors;
      generalError := None;
      var nameError := NameError(form.name);
      if nameError.Some? {
        newErrors := newErrors.(name := nameError);
      }
      var emailError := EmailError(form.email);
      if emailError.Some? {
        newErrors := newErrors.(email := emailError);
      }
      var passwordError := PasswordError(form.password);
      if passwordError.Some? {
        newErrors := newErrors.(password := passwordError);
      }
      errors := newErrors;
      ok := KeyCount(newErrors) == 0;
    }

    /** The part of `handleSubmit` after validation passed: `loading` is set,
        `register` is called with the form, and on success the token is stored
        and the page goes to the dashboard, on failure the error's message (or
        the fallback) is shown; `loading` ends false either way. */
    method Register(response: Outcome<AuthResponse>)
      modifies this`loading, this`registerCalls, this`storedToken, this`navigatedTo, this`generalError
      ensures registerCalls == old(registerCalls) + [form]
      ensures !loading
      ensures response.Ok? ==>
        && storedToken == Some(response.value.token)
        && navigatedTo == Some(DashboardRoute)
        && generalError == old(generalError)
      ensures response.Failed? ==>
        && storedToken == old(storedToken)
        && navigatedTo == old(navigatedTo)
        && generalError == Some(FailureMessage(response.message))
    {
      loading := true;
      registerCalls := registerCalls + [form];
      if response.Ok? {
        storedToken := Some(response.value.token);
        navigatedTo := Some(DashboardRoute);
      } else {
        generalError := Some(FailureMessage(response.message));
      }
      loading := false;
    }

    /** `handleSubmit`, with `response` the way the `register` call would
        settle. On invalid input it stops after validation: `register` is not
        called and `loading` is not touched. */
    method HandleSubmit(response: Outcome<AuthResponse>) returns (called: bool)
      modifies this`errors, this`generalError, this`loading, this`registerCalls, this`storedToken, this`navigatedTo
      ensures errors == Validate(form)
      ensures called <==> KeyCount(errors) == 0
      ensures !called ==>
        && generalError == None && loading == old(loading)
        && registerCalls == old(registerCalls)
        && storedToken == old(storedToken) && navigatedTo == old(navigatedTo)
      ensures called ==>
        && registerCalls == old(registerCalls) + [form]
        && !loading
        && (response.Ok? ==>
              && storedToken == Some(response.value.token)
              && navigatedTo == Some(DashboardRoute)
              && generalError == None)
        && (response.Failed? ==>
              && storedToken == old(storedToken)
              && navigatedTo == old(navigatedTo)
              && generalError == Some(FailureMessage(response.message)))
    {
      ghost var submitted := form;
      called := ValidateForm();
      ghost var validated := errors;
      if called {
        Register(response);
      }
      assert form == submitted && errors == validated;
    }
  }
}
