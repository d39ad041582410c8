/** The sign-up form of src/pages/Register.jsx: its five validators, the
    password confirmation, the per-keystroke update of the form's three
    maps and the gate that lets a submission through only when every
    message is empty. */
module Register {
  import opened Js
  import opened Text
  import opened Patterns

  const FirstNameKey: string := "first_name"
  const LastNameKey: string := "last_name"
  const UsernameKey: string := "username"
  const EmailKey: string := "email"
  const PasswordKey: string := "password"
  const Password2Key: string := "password2"
  const MobileKey: string := "mobile_number"

  /** The seven fields of the form. */
  const FieldKeys: set<string> :=
    {FirstNameKey, LastNameKey, UsernameKey, EmailKey, PasswordKey, Password2Key, MobileKey}

  // ------------------------------------------------------------ names

  /** `[A-Za-z\s]` */
  predicate IsNameChar(c: char) { IsAsciiLetter(c) || IsJsWhitespace(c) }

  predicate AllNameChars(s: string) { forall k :: 0 <= k < |s| ==> IsNameChar(s[k]) }

  /** What the name check accepts: nothing at all (the names are optional),
      or 2 to 50 letters and whitespace. */
  predicate NameAccepted(s: string) { s == [] || (AllNameChars(s) && 2 <= |s| <= 50) }

  /** `validateName(name, fieldName)` */
  function ValidateName(name: string, fieldName: string): string {
    if name == [] then ""
    else if !AllNameChars(name) then fieldName + " should only contain letters and spaces"
    else if Utf16Length(name) < 2 then fieldName + " must be at least 2 characters"
    else if Utf16Length(name) > 50 then fieldName + " must not exceed 50 characters"
    else ""
  }

  /** The name check is silent exactly on accepted names; otherwise the
      charset message takes precedence over the two length messages. The
      letters and whitespace it admits are all single UTF-16 code units, so
      `.length` counts characters. */
  lemma ValidateNameMeaning(name: string, fieldName: string)
    ensures ValidateName(name, fieldName) == "" <==> NameAccepted(name)
    ensures name != [] && !AllNameChars(name) ==>
      ValidateName(name, fieldName) == fieldName + " should only contain letters and spaces"
    ensures AllNameChars(name) && |name| == 1 ==>
      ValidateName(name, fieldName) == fieldName + " must be at least 2 characters"
    ensures AllNameChars(name) && |name| > 50 ==>
      ValidateName(name, fieldName) == fieldName + " must not exceed 50 characters"
  {
    if AllNameChars(name) {
      Utf16LengthOfBmp(name);
    }
  }

  // --------------------------------------------------------- username

  /** `[A-Za-z0-9_-]` */
  predicate IsUsernameChar(c: char) { IsAsciiLetter(c) || IsDigit(c) || c == '_' || c == '-' }

  predicate AllUsernameChars(s: string) { forall k :: 0 <= k < |s| ==> IsUsernameChar(s[k]) }

  /** What the username check accepts: 3 to 20 letters, digits, `_`, `-`. */
  predicate UsernameAccepted(s: string) { AllUsernameChars(s) && 3 <= |s| <= 20 }

  /** `validateUsername` */
  function ValidateUsername(username: string): string {
    if username == [] then "Username is required"
    else if !AllUsernameChars(username) then "Username can only contain letters, numbers, underscores, and hyphens"
    else if Utf16Length(username) < 3 then "Username must be at least 3 characters"
    else if Utf16Length(username) > 20 then "Username must not exceed 20 characters"
    else ""
  }

  /** The username check is silent exactly on accepted usernames; its
      messages come in the order required, charset, length. */
  lemma ValidateUsernameMeaning(username: string)
    ensures ValidateUsername(username) == "" <==> UsernameAccepted(username)
    ensures username == [] ==> ValidateUsername(username) == "Username is required"
    ensures username != [] && !AllUsernameChars(username) ==>
      ValidateUsername(username) == "Username can only contain letters, numbers, underscores, and hyphens"
    ensures username != [] && AllUsernameChars(username) && |username| < 3 ==>
      ValidateUsername(username) == "Username must be at least 3 characters"
    ensures AllUsernameChars(username) && |username| > 20 ==>
      ValidateUsername(username) == "Username must not exceed 20 characters"
  {
    if AllUsernameChars(username) {
      Utf16LengthOfBmp(username);
    }
  }

  // ------------------------------------------------------------ e-mail

  /** `validateEmail` */
  function ValidateEmail(email: string): string {
    if email == [] then "Email is required"
    else if !MatchesEmail(email) then "Please enter a valid email address"
    else ""
  }

  /** Here the address is required, and the check is silent exactly on the
      strings of the e-mail pattern. */
  lemma ValidateEmailMeaning(email: string)
    ensures ValidateEmail(email) == "" <==> EmailRegex(email)
    ensures email == [] ==> ValidateEmail(email) == "Email is required"
    ensures email != [] && !EmailRegex(email) ==> ValidateEmail(email) == "Please enter a valid email address"
  {
    MatchesEmailIffRegex(email);
  }

  // ---------------------------------------------------------- password

  /** `/[A-Z]/.test(s)` */
  predicate HasUpper(s: string) { exists k | 0 <= k < |s| :: IsAsciiUpper(s[k]) }

  /** `/[a-z]/.test(s)` */
  predicate HasLower(s: string) { exists k | 0 <= k < |s| :: IsAsciiLower(s[k]) }

  /** `/[0-9]/.test(s)` */
  predicate HasDigit(s: string) { exists k | 0 <= k < |s| :: IsDigit(s[k]) }

  /** What the password check accepts: at least 8 UTF-16 code units with an
      ASCII upper-case letter, a lower-case letter and a digit; there is no
      rule about symbols. */
  predicate PasswordAccepted(s: string) {
    Utf16Length(s) >= 8 && HasUpper(s) && HasLower(s) && HasDigit(s)
  }

  /** `validatePassword` */
  function ValidatePassword(password: string): string {
    if password == [] then "Password is required"
    else if Utf16Length(password) < 8 then "Password must be at least 8 characters"
    else if !HasUpper(password) then "Password must contain at least one uppercase letter"
    else if !HasLower(password) then "Password must contain at least one lowercase letter"
    else if !HasDigit(password) then "Password must contain at least one number"
    else ""
  }

  /** The password check is silent exactly on accepted passwords; otherwise
      it names the first rule that fails, in the order required, length,
      upper case, lower case, digit. */
  lemma ValidatePasswordMeaning(password: string)
    ensures ValidatePassword(password) == "" <==> PasswordAccepted(password)
    ensures password == [] ==> ValidatePassword(password) == "Password is required"
    ensures password != [] && Utf16Length(password) < 8 ==>
      ValidatePassword(password) == "Password must be at least 8 characters"
    ensures Utf16Length(password) >= 8 && !HasUpper(password) ==>
      ValidatePassword(password) == "Password must contain at least one uppercase letter"
    ensures Utf16Length(password) >= 8 && HasUpper(password) && !HasLower(password) ==>
      ValidatePassword(password) == "Password must contain at least one lowercase letter"
    ensures Utf16Length(password) >= 8 && HasUpper(password) && HasLower(password) && !HasDigit(password) ==>
      ValidatePassword(password) == "Password must contain at least one number"
  {
  }

  /** Example at the length boundary: the seven-character `Abcdef1` gets the
      length message, the eight-character `Abcdefg1` passes every rule. */
  lemma PasswordLengthBoundary(short: string, long: string)
    requires short == "Abcdef1" && long == "Abcdefg1"
    ensures ValidatePassword(short) == "Password must be at least 8 characters"
    ensures ValidatePassword(long) == ""
  {
    Utf16LengthOfBmp(short);
    Utf16LengthOfBmp(long);
    ValidatePasswordMeaning(long);
    assert IsAsciiUpper(long[0]) && IsAsciiLower(long[1]) && IsDigit(long[7]);
  }

  /** Eight characters with no upper-case letter fail on the upper-case
      rule, before the others are looked at. */
  lemma LowerCasePasswordRejected(password: string)
    requires password == "abcdefg1"
    ensures ValidatePassword(password) == "Password must contain at least one uppercase letter"
  {
    Utf16LengthOfBmp(password);
  }

  // ------------------------------------------------------------ mobile

  /** What the mobile check accepts: nothing at all (the number is
      optional), or an accepted Indian mobile number. */
  predicate MobileOptionalAccepted(s: string) { s == [] || MobileAccepted(s) }

  const MobileMessage: string := "Enter a valid 10-digit Indian mobile number (e.g., 9876543210)"

  /** `validateMobile` */
  function ValidateMobile(mobile: string): string {
    if mobile == [] then ""
    else if !MobileAccepted(mobile) then MobileMessage
    else ""
  }

  /** The mobile check is silent exactly on an empty or accepted number,
      and has a single message otherwise. */
  lemma ValidateMobileMeaning(mobile: string)
    ensures ValidateMobile(mobile) == "" <==> MobileOptionalAccepted(mobile)
    ensures ValidateMobile(mobile) != "" ==> ValidateMobile(mobile) == MobileMessage
  {
  }

  /** A bare `9123456789` loses its leading 91 and is refused. */
  lemma BareNumberWith91Refused()
    ensures ValidateMobile("9123456789") == MobileMessage
  {
    RejectedExample();
    ValidateMobileMeaning("9123456789");
  }

  // ------------------------------------------------------- confirmation

  /** The confirmation check: a message exactly when the two passwords
      differ. */
  function ConfirmationMessage(password: string, password2: string): (msg: string)
    ensures msg == "" <==> password == password2
  {
    if password != password2 then "Passwords don't match" else ""
  }

  // ------------------------------------------------------------ the form

  /** Form data holding every field of the form. */
  predicate FormComplete(form: map<string, string>) { FieldKeys <= form.Keys }

  /** The form as first rendered: all seven fields empty. */
  const EmptyForm: map<string, string> := map[
    UsernameKey := "", EmailKey := "", PasswordKey := "", Password2Key := "",
    FirstNameKey := "", LastNameKey := "", MobileKey := ""]

  /** The message the keystroke handler computes for field `name` when it
      now holds `value`; the confirmation is compared with the stored
      password, and a field without a check gets no message. */
  function ChangeMessage(name: string, value: string, password: string): string {
    if name == FirstNameKey then ValidateName(value, "First name")
    else if name == LastNameKey then ValidateName(value, "Last name")
    else if name == UsernameKey then ValidateUsername(value)
    else if name == EmailKey then ValidateEmail(value)
    else if name == MobileKey then ValidateMobile(value)
    else if name == PasswordKey then ValidatePassword(value)
    else if name == Password2Key then ConfirmationMessage(value, password)
    else ""
  }

  /** The keystroke message for a field is empty exactly when the field's
      new value meets its rule; a field without a check gets none. */
  lemma ChangeMessageMeaning(name: string, value: string, password: string)
    ensures name !in FieldKeys ==> ChangeMessage(name, value, password) == ""
    ensures name == Password2Key ==> (ChangeMessage(name, value, password) == "" <==> value == password)
    ensures name == PasswordKey ==> (ChangeMessage(name, value, password) == "" <==> PasswordAccepted(value))
    ensures name == UsernameKey ==> (ChangeMessage(name, value, password) == "" <==> UsernameAccepted(value))
    ensures name == EmailKey ==> (ChangeMessage(name, value, password) == "" <==> EmailRegex(value))
    ensures name == FirstNameKey || name == LastNameKey ==>
      (ChangeMessage(name, value, password) == "" <==> NameAccepted(value))
    ensures name == MobileKey ==> (ChangeMessage(name, value, password) == "" <==> MobileOptionalAccepted(value))
  {
    if name == FirstNameKey {
      ValidateNameMeaning(value, "First name");
    } else if name == LastNameKey {
      ValidateNameMeaning(value, "Last name");
    } else if name == UsernameKey {
      ValidateUsernameMeaning(value);
    } else if name == EmailKey {
      ValidateEmailMeaning(value);
    } else if name == MobileKey {
      ValidateMobileMeaning(value);
    } else if name == PasswordKey {
      ValidatePasswordMeaning(value);
    }
  }

  /** The seven messages computed on submission. */
  function SubmitMessages(form: map<string, string>): (m: map<string, string>)
    requires FormComplete(form)
    ensures m.Keys == FieldKeys
  {
    map[
      FirstNameKey := ValidateName(form[FirstNameKey], "First name"),
      LastNameKey := ValidateName(form[LastNameKey], "Last name"),
      UsernameKey := ValidateUsername(form[UsernameKey]),
      EmailKey := ValidateEmail(form[EmailKey]),
      PasswordKey := ValidatePassword(form[PasswordKey]),
      Password2Key := ConfirmationMessage(form[PasswordKey], form[Password2Key]),
      MobileKey := ValidateMobile(form[MobileKey])]
  }

  /** `Object.values(messages).some(error => error !== '')` */
  predicate Blocked(messages: map<string, string>) {
    exists k | k in messages :: messages[k] != ""
  }

  /** Every field meets its rule. */
  ghost predicate FormAccepted(form: map<string, string>)
    requires FormComplete(form)
  {
    && NameAccepted(form[FirstNameKey]) && NameAccepted(form[LastNameKey])
    && UsernameAccepted(form[UsernameKey]) && EmailRegex(form[EmailKey])
    && PasswordAccepted(form[PasswordKey]) && form[PasswordKey] == form[Password2Key]
    && MobileOptionalAccepted(form[MobileKey])
  }

  /** A map over the seven fields blocks exactly when one of their
      messages is set. */
  lemma BlockedIffSomeFieldSet(m: map<string, string>)
    requires m.Keys == FieldKeys
    ensures !Blocked(m) <==>
      && m[FirstNameKey] == "" && m[LastNameKey] == "" && m[UsernameKey] == "" && m[EmailKey] == ""
      && m[PasswordKey] == "" && m[Password2Key] == "" && m[MobileKey] == ""
  {
    if !Blocked(m) {
      assert FirstNameKey in m && LastNameKey in m && UsernameKey in m && EmailKey in m;
      assert PasswordKey in m && Password2Key in m && MobileKey in m;
    }
  }

  /** The seven messages are all empty exactly when the seven values meet
      their rules. */
  lemma MessagesEmptyIff(first: string, last: string, username: string, email: string,
                         password: string, password2: string, mobile: string)
    ensures
      && ValidateName(first, "First name") == "" && ValidateName(last, "Last name") == ""
      && ValidateUsername(username) == "" && ValidateEmail(email) == ""
      && ValidatePassword(password) == "" && ConfirmationMessage(password, password2) == ""
      && ValidateMobile(mobile) == ""
      <==>
      && NameAccepted(first) && NameAccepted(last) && UsernameAccepted(username) && EmailRegex(email)
      && PasswordAccepted(password) && password == password2 && MobileOptionalAccepted(mobile)
  {
    ValidateNameMeaning(first, "First name");
    ValidateNameMeaning(last, "Last name");
    ValidateUsernameMeaning(username);
    ValidateEmailMeaning(email);
    ValidatePasswordMeaning(password);
    ValidateMobileMeaning(mobile);
  }

  /** A submission gets past the gate exactly when every field meets its
      rule and the two passwords agree. */
  lemma SubmitGateIff(form: map<string, string>)
    requires FormComplete(form)
    ensures !Blocked(SubmitMessages(form)) <==> FormAccepted(form)
  {
    BlockedIffSomeFieldSet(SubmitMessages(form));
    MessagesEmptyIff(form[FirstNameKey], form[LastNameKey], form[UsernameKey], form[EmailKey],
                     form[PasswordKey], form[Password2Key], form[MobileKey]);
  }

  /** The sign-up component's state. */
  class RegisterForm {
    var formData: map<string, string>
    var validationErrors: map<string, string>
    /** Errors the server reported, field by field. */
    var errors: map<string, Json>
    var loading: bool

    constructor ()
      ensures FormComplete(formData)
      ensures formData == EmptyForm && validationErrors == map[] && errors == map[] && !loading
    {
      formData := EmptyForm;
      validationErrors := map[];
      errors := map[];
      loading := false;
    }

    /** `handleChange`: the field takes the new value, its message is
      recomputed and a truthy server error for it is blanked; no other
      entry of any of the three maps changes. */
    method HandleChange(name: string, value: string)
      requires FormComplete(formData)
      modifies this`formData, this`validationErrors, this`errors
      ensures FormComplete(formData)
      ensures formData == old(formData)[name := value]
      ensures validationErrors == old(validationErrors)[name := ChangeMessage(name, value, old(formData)[PasswordKey])]
      ensures Present(Lookup(old(errors), name)) ==> errors == old(errors)[name := JStr("")]
      ensures !Present(Lookup(old(errors), name)) ==> errors == old(errors)
    {
      var password := formData[PasswordKey];
      formData := formData[name := value];
      var error := "";
      if name == FirstNameKey {
        error := ValidateName(value, "First name");
      } else if name == LastNameKey {
        error := ValidateName(value, "Last name");
      } else if name == UsernameKey {
        error := ValidateUsername(value);
      } else if name == EmailKey {
        error := ValidateEmail(value);
      } else if name == MobileKey {
        error := ValidateMobile(value);
      } else if name == PasswordKey {
        error := ValidatePassword(value);
      } else if name == Password2Key {
        error := if value != password then "Passwords don't match" else "";
      }
      validationErrors := validationErrors[name := error];
      if Present(Lookup(errors, name)) {
        errors := errors[name := JStr("")];
      }
    }

    /** The first half of `handleSubmit`: all seven messages are computed
      and replace the old ones; the result says whether none is set. */
    method ValidateAll() returns (clean: bool)
      requires FormComplete(formData)
      modifies this`validationErrors
      ensures validationErrors == SubmitMessages(formData)
      ensures clean <==> !Blocked(validationErrors)
    {
      validationErrors := SubmitMessages(formData);
      clean := !Blocked(validationErrors);
    }

    /** `handleSubmit` up to the call of the registration routine: when no
      message is set the server errors are cleared and the form starts
      loading; otherwise nothing more happens. */
    method HandleSubmit() returns (proceed: bool)
      requires FormComplete(formData)
      modifies this`validationErrors, this`errors, this`loading
      ensures validationErrors == SubmitMessages(formData)
      ensures proceed <==> !Blocked(validationErrors)
      ensures proceed ==> errors == map[] && loading
      ensures !proceed ==> errors == old(errors) && loading == old(loading)
    {
      proceed := ValidateAll();
      if proceed {
        errors := map[];
        loading := true;
      }
    }
  }

  /** Typing into the password field leaves the confirmation's message as
      it was, even when the two passwords now agree or differ. */
  lemma PasswordChangeKeepsConfirmationMessage(messages: map<string, string>, value: string, password: string)
    ensures Lookup(messages[PasswordKey := ChangeMessage(PasswordKey, value, password)], Password2Key)
      == Lookup(messages, Password2Key)
  {
  }
}
