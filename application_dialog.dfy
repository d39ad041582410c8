/** The add/edit dialog of src/components/ApplicationDialog.jsx: its five
    validators, loading a record into the form, the per-keystroke update,
    and the submission gate that hands a cleaned payload to the caller. The
    URL parser and the current date are arguments. */
module ApplicationDialog {
  import opened Js
  import opened Text
  import opened Patterns
  import Register

  const CompanyNameKey: string := "company_name"
  const JobTitleKey: string := "job_title"
  const JobUrlKey: string := "job_url"
  const StatusKey: string := "status"
  const ApplicationDateKey: string := "application_date"
  const SalaryRangeKey: string := "salary_range"
  const LocationKey: string := "location"
  const ContactPersonKey: string := "contact_person"
  const ContactEmailKey: string := "contact_email"
  const ContactPhoneKey: string := "contact_phone"
  const NotesKey: string := "notes"

  /** The eleven fields of the form. */
  const FieldKeys: set<string> := {
    CompanyNameKey, JobTitleKey, JobUrlKey, StatusKey, ApplicationDateKey, SalaryRangeKey,
    LocationKey, ContactPersonKey, ContactEmailKey, ContactPhoneKey, NotesKey}

  /** The five fields that have a check. */
  const ValidatedKeys: set<string> := {CompanyNameKey, ContactPersonKey, ContactPhoneKey, ContactEmailKey, JobUrlKey}

  /** The values of the status menu, in menu order. */
  const StatusChoices: seq<string> :=
    ["applied", "interview_scheduled", "technical_round", "hr_round", "offer_received", "rejected"]

  const DefaultStatus: string := "applied"

  // ------------------------------------------------------------ validators

  /** `[A-Za-z\s.]` */
  predicate IsContactNameChar(c: char) { IsAsciiLetter(c) || IsJsWhitespace(c) || c == '.' }

  predicate AllContactNameChars(s: string) { forall k :: 0 <= k < |s| ==> IsContactNameChar(s[k]) }

  /** The dialog's `validateName`, applied to the contact person. */
  function ValidateContactName(name: string): string {
    if name == [] then ""
    else if !AllContactNameChars(name) then "Name can only contain letters, spaces, and periods"
    else ""
  }

  /** The contact name check is silent exactly when every character is a
      letter, whitespace or a period; there is no length rule. */
  lemma ValidateContactNameMeaning(name: string)
    ensures ValidateContactName(name) == "" <==> AllContactNameChars(name)
  {
  }

  /** `validateCompanyName` */
  function ValidateCompanyName(name: string): string {
    if name == [] then "Company name is required"
    else if Utf16Length(name) < 2 then "Company name must be at least 2 characters"
    else if Utf16Length(name) > 100 then "Company name is too long"
    else ""
  }

  /** What the company name check accepts: 2 to 100 UTF-16 code units of
      anything. */
  predicate CompanyNameAccepted(s: string) { 2 <= Utf16Length(s) <= 100 }

  /** The company name check is silent exactly on accepted names, and each
      way of failing has its own message. */
  lemma ValidateCompanyNameMeaning(name: string)
    ensures ValidateCompanyName(name) == "" <==> CompanyNameAccepted(name)
    ensures name == [] ==> ValidateCompanyName(name) == "Company name is required"
    ensures name != [] && Utf16Length(name) < 2 ==>
      ValidateCompanyName(name) == "Company name must be at least 2 characters"
    ensures Utf16Length(name) > 100 ==> ValidateCompanyName(name) == "Company name is too long"
  {
  }

  /** Examples: `"A"` is one character short; `"Acme Corp"` is accepted. */
  lemma CompanyNameExamples(short: string, good: string)
    requires short == "A" && good == "Acme Corp"
    ensures ValidateCompanyName(short) == "Company name must be at least 2 characters"
    ensures ValidateCompanyName(good) == ""
  {
    Utf16LengthOfBmp(short);
    Utf16LengthOfBmp(good);
  }

  /** A single character outside the Basic Multilingual Plane already
      counts as two, so it passes the length rule. */
  lemma AstralCharacterLongEnough(c: char)
    requires !InBmp(c)
    ensures ValidateCompanyName([c]) == ""
  {
    assert [c][1..] == [];
  }

  const PhoneMessage: string := "Enter valid 10-digit Indian mobile number (e.g., 9876543210)"

  /** `validatePhone` */
  function ValidatePhone(phone: string): string {
    if phone == [] then ""
    else if !MobileAccepted(phone) then PhoneMessage
    else ""
  }

  /** The phone check passes exactly the numbers the sign-up form's mobile
      check passes; only the wording of the message differs. */
  lemma PhoneAgreesWithRegistration(phone: string)
    ensures ValidatePhone(phone) == "" <==> Register.ValidateMobile(phone) == ""
    ensures ValidatePhone(phone) != "" ==> ValidatePhone(phone) == PhoneMessage
    ensures Register.ValidateMobile(phone) != "" ==> Register.ValidateMobile(phone) == Register.MobileMessage
    ensures PhoneMessage != Register.MobileMessage
  {
    assert |PhoneMessage| + 2 == |Register.MobileMessage|;
  }

  /** The dialog's `validateEmail` */
  function ValidateContactEmail(email: string): string {
    if email == [] then ""
    else if !MatchesEmail(email) then "Enter a valid email address"
    else ""
  }

  /** Here the address is optional; a non-empty one is judged by the same
      pattern as on the sign-up form. */
  lemma ValidateContactEmailMeaning(email: string)
    ensures ValidateContactEmail(email) == "" <==> email == [] || EmailRegex(email)
    ensures email != [] ==> (ValidateContactEmail(email) == "" <==> Register.ValidateEmail(email) == "")
  {
    MatchesEmailIffRegex(email);
  }

  /** `validateURL`, where `urlParses` stands for `new URL(url)` not
      throwing. */
  function ValidateUrl(url: string, urlParses: string -> bool): string {
    if url == [] then ""
    else if !urlParses(url) then "Enter a valid URL (e.g., https://example.com)"
    else ""
  }

  /** The URL check is silent exactly on an empty URL or one the parser
      accepts. */
  lemma ValidateUrlMeaning(url: string, urlParses: string -> bool)
    ensures ValidateUrl(url, urlParses) == "" <==> url == [] || urlParses(url)
  {
  }

  // ----------------------------------------------------------- records

  /** A record as the server sends it; any field may be missing or null. */
  datatype Application = Application(
    companyName: Option<string>, jobTitle: Option<string>, jobUrl: Option<string>,
    status: Option<string>, applicationDate: Option<string>, salaryRange: Option<string>,
    location: Option<string>, contactPerson: Option<string>, contactEmail: Option<string>,
    contactPhone: Option<string>, notes: Option<string>)

  /** The object handed to `onSave`: the seven optional fields become
      `null` when empty. */
  datatype Payload = Payload(
    companyName: string, jobTitle: string, jobUrl: Option<string>, status: string,
    applicationDate: string, salaryRange: Option<string>, location: Option<string>,
    contactPerson: Option<string>, contactEmail: Option<string>, contactPhone: Option<string>,
    notes: Option<string>)

  predicate FormComplete(form: map<string, string>) { FieldKeys <= form.Keys }

  /** The record's field for form key `key`; every field is missing when
      there is no record. */
  function RecordField(app: Option<Application>, key: string): Option<string> {
    match app
    case None => None
    case Some(a) =>
      if key == CompanyNameKey then a.companyName
      else if key == JobTitleKey then a.jobTitle
      else if key == JobUrlKey then a.jobUrl
      else if key == StatusKey then a.status
      else if key == ApplicationDateKey then a.applicationDate
      else if key == SalaryRangeKey then a.salaryRange
      else if key == LocationKey then a.location
      else if key == ContactPersonKey then a.contactPerson
      else if key == ContactEmailKey then a.contactEmail
      else if key == ContactPhoneKey then a.contactPhone
      else if key == NotesKey then a.notes
      else None
  }

  /** The value a field takes when the record lacks it: `applied` for the
      status, today's date for the date, the empty string otherwise. */
  function Fallback(key: string, today: string): string {
    if key == StatusKey then DefaultStatus
    else if key == ApplicationDateKey then today
    else ""
  }

  /** `field || fallback`: the field's text when it is truthy, the fallback
      otherwise. */
  predicate LoadedAs(value: string, field: Option<string>, fallback: string) {
    (Filled(field) ==> value == field.value) && (!Filled(field) ==> value == fallback)
  }

  /** The form the load effect sets: each field from the record with `|| ''`
      (status `|| 'applied'`, date `|| today`), or the blank form when there
      is no record. */
  function LoadedForm(app: Option<Application>, today: string): (form: map<string, string>)
    ensures FormComplete(form)
    ensures forall k :: k in FieldKeys ==> LoadedAs(form[k], RecordField(app, k), Fallback(k, today))
  {
    match app
    case None => map[
      CompanyNameKey := "", JobTitleKey := "", JobUrlKey := "", StatusKey := DefaultStatus,
      ApplicationDateKey := today, SalaryRangeKey := "", LocationKey := "", ContactPersonKey := "",
      ContactEmailKey := "", ContactPhoneKey := "", NotesKey := ""]
    case Some(a) => map[
      CompanyNameKey := OrDefault(a.companyName, ""), JobTitleKey := OrDefault(a.jobTitle, ""),
      JobUrlKey := OrDefault(a.jobUrl, ""), StatusKey := OrDefault(a.status, DefaultStatus),
      ApplicationDateKey := OrDefault(a.applicationDate, today),
      SalaryRangeKey := OrDefault(a.salaryRange, ""), LocationKey := OrDefault(a.location, ""),
      ContactPersonKey := OrDefault(a.contactPerson, ""), ContactEmailKey := OrDefault(a.contactEmail, ""),
      ContactPhoneKey := OrDefault(a.contactPhone, ""), NotesKey := OrDefault(a.notes, "")]
  }

  /** `value || null` */
  function NullIfEmpty(s: string): (r: Option<string>)
    ensures r == None <==> s == []
    ensures r.Some? ==> r.value == s
  {
    if s == [] then None else Some(s)
  }

  /** `cleanedData` */
  function Clean(form: map<string, string>): Payload
    requires FormComplete(form)
  {
    Payload(
      form[CompanyNameKey], form[JobTitleKey], NullIfEmpty(form[JobUrlKey]), form[StatusKey],
      form[ApplicationDateKey], NullIfEmpty(form[SalaryRangeKey]), NullIfEmpty(form[LocationKey]),
      NullIfEmpty(form[ContactPersonKey]), NullIfEmpty(form[ContactEmailKey]),
      NullIfEmpty(form[ContactPhoneKey]), NullIfEmpty(form[NotesKey]))
  }

  /** No optional field of a payload is an empty string: it is either
      `null` or has text. */
  predicate NoEmptyOptional(p: Payload) {
    && p.jobUrl != Some("") && p.salaryRange != Some("") && p.location != Some("")
    && p.contactPerson != Some("") && p.contactEmail != Some("") && p.contactPhone != Some("")
    && p.notes != Some("")
  }

  /** An optional field as sent: `null` exactly when the form's value is
      empty, and that value otherwise. */
  predicate SentAs(sent: Option<string>, value: string) {
    (sent.None? <==> value == []) && (sent.Some? ==> sent.value == value)
  }

  /** Cleaning sends each optional field as `null` exactly when it is
      empty and as it is otherwise, so no empty optional field, and passes
      the four required fields through as they are. */
  lemma CleanMeaning(form: map<string, string>)
    requires FormComplete(form)
    ensures NoEmptyOptional(Clean(form))
    ensures Clean(form).companyName == form[CompanyNameKey] && Clean(form).jobTitle == form[JobTitleKey]
    ensures Clean(form).status == form[StatusKey] && Clean(form).applicationDate == form[ApplicationDateKey]
    ensures SentAs(Clean(form).jobUrl, form[JobUrlKey]) && SentAs(Clean(form).salaryRange, form[SalaryRangeKey])
    ensures SentAs(Clean(form).location, form[LocationKey]) && SentAs(Clean(form).contactPerson, form[ContactPersonKey])
    ensures SentAs(Clean(form).contactEmail, form[ContactEmailKey])
    ensures SentAs(Clean(form).contactPhone, form[ContactPhoneKey]) && SentAs(Clean(form).notes, form[NotesKey])
  {
  }

  /** A value the server can send back and the dialog would re-send:
      missing, or non-empty. */
  predicate OptionalField(v: Option<string>) { v.None? || v.value != [] }

  /** A record whose four required fields are filled and whose optional
      fields are null or non-empty. */
  predicate WellFormed(a: Application) {
    && Filled(a.companyName) && Filled(a.jobTitle) && Filled(a.status) && Filled(a.applicationDate)
    && OptionalField(a.jobUrl) && OptionalField(a.salaryRange) && OptionalField(a.location)
    && OptionalField(a.contactPerson) && OptionalField(a.contactEmail) && OptionalField(a.contactPhone)
    && OptionalField(a.notes)
  }

  /** Editing a well-formed record and saving it untouched sends the record
      back unchanged, whatever the date. */
  lemma LoadThenCleanRoundTrip(a: Application, today: string)
    requires WellFormed(a)
    ensures Clean(LoadedForm(Some(a), today)) == Payload(
      a.companyName.value, a.jobTitle.value, a.jobUrl, a.status.value, a.applicationDate.value,
      a.salaryRange, a.location, a.contactPerson, a.contactEmail, a.contactPhone, a.notes)
  {
  }

  /** A record without a status loads as `applied`, one of the six menu
      values; a blank form does too. */
  lemma MissingStatusLoadsAsApplied(app: Option<Application>, today: string)
    requires app.None? || !Filled(app.value.status)
    ensures LoadedForm(app, today)[StatusKey] == DefaultStatus
    ensures DefaultStatus in StatusChoices
  {
  }

  // ----------------------------------------------------------- the form

  /** The message the keystroke handler computes for field `name`; the six
      fields without a check always get none. */
  function ChangeMessage(name: string, value: string, urlParses: string -> bool): string {
    if name == CompanyNameKey then ValidateCompanyName(value)
    else if name == ContactPersonKey then ValidateContactName(value)
    else if name == ContactPhoneKey then ValidatePhone(value)
    else if name == ContactEmailKey then ValidateContactEmail(value)
    else if name == JobUrlKey then ValidateUrl(value, urlParses)
    else ""
  }

  /** No value typed into an unchecked field, the status included, ever
      produces a message. */
  lemma UncheckedFieldsNeverComplain(name: string, value: string, urlParses: string -> bool)
    requires name !in ValidatedKeys
    ensures ChangeMessage(name, value, urlParses) == ""
  {
  }

  /** The five messages computed on submission. */
  function SubmitMessages(form: map<string, string>, urlParses: string -> bool): (m: map<string, string>)
    requires FormComplete(form)
    ensures m.Keys == ValidatedKeys
  {
    map[
      CompanyNameKey := ValidateCompanyName(form[CompanyNameKey]),
      ContactPersonKey := ValidateContactName(form[ContactPersonKey]),
      ContactPhoneKey := ValidatePhone(form[ContactPhoneKey]),
      ContactEmailKey := ValidateContactEmail(form[ContactEmailKey]),
      JobUrlKey := ValidateUrl(form[JobUrlKey], urlParses)]
  }

  /** Every checked field meets its rule. */
  ghost predicate FormAccepted(form: map<string, string>, urlParses: string -> bool)
    requires FormComplete(form)
  {
    && CompanyNameAccepted(form[CompanyNameKey])
    && AllContactNameChars(form[ContactPersonKey])
    && Register.MobileOptionalAccepted(form[ContactPhoneKey])
    && (form[ContactEmailKey] == [] || EmailRegex(form[ContactEmailKey]))
    && (form[JobUrlKey] == [] || urlParses(form[JobUrlKey]))
  }

  /** A map over the five checked fields blocks exactly when one of their
      messages is set. */
  lemma BlockedIffSomeFieldSet(m: map<string, string>)
    requires m.Keys == ValidatedKeys
    ensures !Register.Blocked(m) <==>
      && m[CompanyNameKey] == "" && m[ContactPersonKey] == "" && m[ContactPhoneKey] == ""
      && m[ContactEmailKey] == "" && m[JobUrlKey] == ""
  {
    if !Register.Blocked(m) {
      assert CompanyNameKey in m && ContactPersonKey in m && ContactPhoneKey in m;
      assert ContactEmailKey in m && JobUrlKey in m;
    }
  }

  /** The five messages are all empty exactly when the five values meet
      their rules. */
  lemma MessagesEmptyIff(company: string, person: string, phone: string, email: string, url: string,
                         urlParses: string -> bool)
    ensures
      && ValidateCompanyName(company) == "" && ValidateContactName(person) == ""
      && ValidatePhone(phone) == "" && ValidateContactEmail(email) == "" && ValidateUrl(url, urlParses) == ""
      <==>
      && CompanyNameAccepted(company) && AllContactNameChars(person) && Register.MobileOptionalAccepted(phone)
      && (email == [] || EmailRegex(email)) && (url == [] || urlParses(url))
  {
    ValidateCompanyNameMeaning(company);
    ValidateContactNameMeaning(person);
    ValidateContactEmailMeaning(email);
    ValidateUrlMeaning(url, urlParses);
  }

  /** `onSave` is reached exactly when every checked field meets its rule. */
  lemma SubmitGateIff(form: map<string, string>, urlParses: string -> bool)
    requires FormComplete(form)
    ensures !Register.Blocked(SubmitMessages(form, urlParses)) <==> FormAccepted(form, urlParses)
  {
    BlockedIffSomeFieldSet(SubmitMessages(form, urlParses));
    MessagesEmptyIff(form[CompanyNameKey], form[ContactPersonKey], form[ContactPhoneKey],
                     form[ContactEmailKey], form[JobUrlKey], urlParses);
  }

  /** Changing a field without a check (the status, say) changes neither
      the submission's messages nor its verdict. */
  lemma SubmitIgnoresUncheckedFields(form: map<string, string>, name: string, value: string,
                                     urlParses: string -> bool)
    requires FormComplete(form) && name !in ValidatedKeys
    ensures SubmitMessages(form[name := value], urlParses) == SubmitMessages(form, urlParses)
  {
  }

  /** The dialog component's state. */
  class DialogForm {
    var formData: map<string, string>
    var validationErrors: map<string, string>

    /** The dialog as first rendered, with `today` as the default date. */
    constructor (today: string)
      ensures formData == LoadedForm(None, today) && validationErrors == map[]
    {
      formData := LoadedForm(None, today);
      validationErrors := map[];
    }

    /** The load effect, run when the dialog opens or its record changes:
      the form is replaced and every message dropped. */
    method Load(app: Option<Application>, today: string)
      modifies this
      ensures formData == LoadedForm(app, today) && validationErrors == map[]
    {
      formData := LoadedForm(app, today);
      validationErrors := map[];
    }

    /** `handleChange`: the field takes the new value and its message is
      recomputed; no other entry of either map changes. */
    method HandleChange(name: string, value: string, urlParses: string -> bool)
      requires FormComplete(formData)
      modifies this
      ensures FormComplete(formData)
      ensures formData == old(formData)[name := value]
      ensures validationErrors == old(validationErrors)[name := ChangeMessage(name, value, urlParses)]
    {
      formData := formData[name := value];
      var error := "";
      if name == CompanyNameKey {
        error := ValidateCompanyName(value);
      } else if name == ContactPersonKey {
        error := ValidateContactName(value);
      } else if name == ContactPhoneKey {
        error := ValidatePhone(value);
      } else if name == ContactEmailKey {
        error := ValidateContactEmail(value);
      } else if name == JobUrlKey {
        error := ValidateUrl(value, urlParses);
      }
      validationErrors := validationErrors[name := error];
    }

    /** The first half of `handleSubmit`: the five messages replace the old
      ones; the result says whether none is set. */
    method ValidateAll(urlParses: string -> bool) returns (clean: bool)
      requires FormComplete(formData)
      modifies this`validationErrors
      ensures validationErrors == SubmitMessages(formData, urlParses)
      ensures clean <==> !Register.Blocked(validationErrors)
    {
      validationErrors := SubmitMessages(formData, urlParses);
      clean := !Register.Blocked(validationErrors);
    }

    /** `handleSubmit`: the cleaned payload handed to `onSave`, or nothing
      when a message is set. */
    method HandleSubmit(urlParses: string -> bool) returns (saved: Option<Payload>)
      requires FormComplete(formData)
      modifies this`validationErrors
      ensures validationErrors == SubmitMessages(formData, urlParses)
      ensures saved.Some? <==> !Register.Blocked(validationErrors)
      ensures saved.Some? ==> saved.value == Clean(formData)
    {
      var clean := ValidateAll(urlParses);
      if clean {
        saved := Some(Clean(formData));
      } else {
        saved := None;
      }
    }
  }
}
