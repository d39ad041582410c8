# Job-application tracker client: a verified model

This project models, in Dafny, the client-side logic of a React
job-application tracker. It leaves the page layout aside and covers:

- **The session** (`AuthContext`). The signed-in user, the loading flag, and
  the three keys kept in the browser's durable storage (`access_token`,
  `refresh_token`, `username`). Start-up, login, registration and logout are
  modelled as methods of a class.
- **The shared HTTP client** (`Api`). The list of public endpoints, the
  substring test that uses it, and the request interceptor. The interceptor
  writes `Authorization: Bearer <token>` into the request configuration in
  place.
- **The record service** (`ApplicationService`). The list query is built by
  successive `URLSearchParams.append` calls. Its serializer
  (application/x-www-form-urlencoded: UTF-8, then percent-encoding) is
  modelled in full. The module also covers the path of each operation and the
  uniform `{ success, data | error }` result with its per-operation fallback
  messages.
- **The sign-up form** (`Register`). The five validators, the password
  confirmation, the keystroke handler that rewrites one entry of each of the
  form's maps, and the submission gate.
- **The add/edit dialog** (`ApplicationDialog`). Its five validators, loading a
  record into the form with the `|| ''` defaults, the keystroke handler, and
  the submission gate. The gate hands a cleaned payload to the caller, with
  empty optional fields sent as `null`.
- **Derived displays.** The statistics cards (`StatisticsCards`) and the
  status chip's label and colour (`ApplicationCard`).
- **Small state machines.** The landing page's slideshow index
  (`LandingPage`), the route guard, the reload handler and the route table
  (`App`).

Two support modules state JavaScript's own semantics once, for everything
above:

- `Js`: truthiness, `||` defaults, a truncating `%`, and a JSON value type.
- `Text`: the ECMAScript `\s` class, `.length` in UTF-16 code units,
  `includes`, `indexOf`, ASCII case mapping, and `String(n)`.

`Patterns` holds the two regular-expression checks that both forms carry a
copy of:

- e-mail: `^[^\s@]+@[^\s@]+\.[^\s@]+$`;
- Indian mobile number: strip `[\s\-+]`, drop one leading `91`, then
  `^[6-9]\d{9}$`.

The e-mail check is written as a scan and proved equal to the language of
the regular expression.

Remote calls, the URL parser and the current date are arguments: a call's
outcome is a value such as `Issued(access, refresh)` or `Failed(response)`.

Two consequences of the code as written are stated and proved:

- The interceptor's public list holds `/token/` and `/register/`, but the
  session code posts to the relative paths `token/` and `register/`. So
  login and registration requests carry the stored bearer token whenever one
  is stored (`Api.CallerPathsCarryStoredToken`).
- The mobile check deletes a leading `91` before it counts digits. So a bare
  ten-digit number such as `9123456789` is refused
  (`Patterns.RejectedExample`).

## Model

| member | source | states |
|---|---|---|
| AuthContext.RestoredUser | src/context/AuthContext.jsx:11-17 | start-up restores a user exactly when a non-empty access token is stored, whatever the stored name, and the user's name is the stored `username` (possibly missing) |
| AuthContext.AuthProvider.constructor | src/context/AuthContext.jsx:7-8 | the provider starts with no user and loading |
| AuthContext.AuthProvider.Bootstrap | src/context/AuthContext.jsx:11-19 | the start-up effect sets the user to the restored one when a token is stored and leaves it otherwise; loading ends false |
| AuthContext.SignedInStorage | src/context/AuthContext.jsx:27-29 | after a login the three session keys hold the access token, the refresh token and the typed name; every other key is unchanged |
| AuthContext.AuthProvider.Login | src/context/AuthContext.jsx:22-39 | a login that gets a token pair stores it, sets the user to the typed name and succeeds; a refused login changes neither storage nor user and reports `LoginError` |
| AuthContext.LoginError | src/context/AuthContext.jsx:34-37 | a failed login reports the server's `detail` when it is truthy, otherwise `'Login failed'`; the message is always truthy |
| AuthContext.AuthProvider.Register | src/context/AuthContext.jsx:42-52 | registration changes no state; it succeeds exactly when the server accepts, and a refusal reports `RegisterError` |
| AuthContext.RegisterError | src/context/AuthContext.jsx:47-50 | a failed registration reports the whole server payload when it is truthy, otherwise `'Registration failed'` |
| AuthContext.SignedOutStorage | src/context/AuthContext.jsx:56-58 | logout removes exactly the three session keys and keeps every other key |
| AuthContext.AuthProvider.Logout | src/context/AuthContext.jsx:55-60 | logout leaves storage signed out and the user null, from any state |
| AuthContext.SignOutIdempotent | src/context/AuthContext.jsx:55-60 | logging out twice is logging out once |
| AuthContext.NoUserRestoredAfterSignOut | src/context/AuthContext.jsx:11-17 | start-up after a logout restores nobody |
| AuthContext.SignedInUserRestored | src/context/AuthContext.jsx:11-17 | start-up after a login with a non-empty token restores exactly the user who signed in |
| AuthContext.EmptyTokenNotRestored | src/context/AuthContext.jsx:12-13 | a login whose access token is empty is forgotten at the next start-up |
| Api.SomeIncludedIff | src/services/api.js:19-21 | the `some` over the list holds exactly when one listed fragment is included in the URL |
| Api.IsPublic | src/services/api.js:19-21 | the interceptor's public test: a present URL that includes a listed fragment (meaning stated by `Api.IsPublicIffListedFragmentOccurs`) |
| Api.IsPublicIffListedFragmentOccurs | src/services/api.js:13-21 | a URL is public exactly when it is present and one of the three listed fragments occurs in it as a substring |
| Api.StoredToken | src/services/api.js:25-26 | the interceptor uses the stored access token exactly when it is present and non-empty |
| Api.InterceptedHeaders | src/services/api.js:24-30 | only `Authorization` may change; a public URL or a missing or empty token leaves the headers as they are; otherwise `Authorization` is `Bearer ` plus the token |
| Api.RequestConfig.constructor | src/services/api.js:5-10 | a new request starts from the instance's configured headers: the JSON content type and nothing else |
| Api.Intercept | src/services/api.js:16-31 | the interceptor returns the same configuration object, with its headers changed in place as `InterceptedHeaders` says |
| Api.ContentTypeKept | src/services/api.js:7-9 | the content type of a new request survives the interceptor |
| Api.NoSlashBeforeROrTNotPublic | src/services/api.js:13-21 | a URL in which no `/` is followed by `r` or `t` is not public |
| Api.CallerPathsNotPublic | src/services/api.js:13 | the relative paths `token/` and `register/` are not public |
| Api.AbsoluteEndpointPathsPublic | src/services/api.js:13 | `/token/`, `/register/` and `/token/refresh/` are public |
| Api.CallerPathsCarryStoredToken | src/services/api.js:24-28 | with a token stored, requests for `token/` and `register/` carry it as a bearer credential |
| ApplicationService.FormEncode | src/services/applicationService.js:10 | a serialized name or value holds only unreserved characters, `+` and `%`, so never `&`, `=` or `/` |
| ApplicationService.FormEncodeUnreserved | src/services/applicationService.js:10 | a string of unreserved characters is serialized as it is |
| ApplicationService.FormEncodeAppend | src/services/applicationService.js:10 | serialization works character by character |
| ApplicationService.EncodePairHasNoSeparator | src/services/applicationService.js:10 | a serialized pair holds neither `&` nor `/` |
| ApplicationService.SplitSerialized | src/services/applicationService.js:10 | splitting the query on `&` gives back exactly the serialized pairs, in append order |
| ApplicationService.Serialize | src/services/applicationService.js:10 | `params.toString()`: the serialized pairs joined by `&` (inverse stated by `ApplicationService.SplitSerialized`) |
| ApplicationService.SearchParams.Append | src/services/applicationService.js:7-8 | `append` puts the pair at the end of the list |
| ApplicationService.QueryPairs | src/services/applicationService.js:7-8 | the query holds `status` exactly when it is truthy and `search` exactly when it is truthy, `status` first |
| ApplicationService.BuildListPath | src/services/applicationService.js:6-10 | the successive appends build exactly `ListPath` |
| ApplicationService.ListPath | src/services/applicationService.js:6-10 | the list request's path (stated by `ApplicationService.QueryPairs`, `ApplicationService.UnfilteredListPath`, `ApplicationService.BothFiltersListPath`) |
| ApplicationService.UnfilteredListPath | src/services/applicationService.js:6-10 | with no truthy filter the request is for `applications/?` |
| ApplicationService.StatusBeforeSearch | src/services/applicationService.js:7-8 | with both filters the query holds two pairs, `status` then `search` |
| ApplicationService.BothFiltersListPath | src/services/applicationService.js:6-10 | filters of unreserved characters appear literally, as `applications/?status=…&search=…` |
| ApplicationService.RequestFor | src/services/applicationService.js:4-55 | the verb, path and body of each operation: list and statistics are GETs without body, create posts to `applications/`, update and delete target `applications/<id>/` |
| ApplicationService.RecordPathsDistinct | src/services/applicationService.js:38-55 | different record ids give different paths |
| ApplicationService.RecordPath | src/services/applicationService.js:40-50 | `applications/<id>/` (injective by `ApplicationService.RecordPathsDistinct`) |
| ApplicationService.StatisticsPathIsNoRecordPath | src/services/applicationService.js:18-45 | the statistics path is no record's path |
| ApplicationService.SlashNotBeforeROrT | src/services/applicationService.js:4-55 | in every service path a `/` is never followed by `r` or `t` |
| ApplicationService.SerializeHasNoSlash | src/services/applicationService.js:10 | a serialized query holds no `/` |
| ApplicationService.ServiceRequestsAreAuthenticated | src/services/applicationService.js:4-55 | no service request is public, so each carries the stored bearer token |
| ApplicationService.Settle | src/services/applicationService.js:4-55 | success exactly when the server answered, with its data unmodified (none for delete); a failure carries the truthy server payload, or else the operation's own message |
| ApplicationService.FallbackMessagesDistinct | src/services/applicationService.js:12-54 | each operation has its own fallback message |
| ApplicationService.FallbackMessage | src/services/applicationService.js:13-53 | each operation's own fallback message (distinct by `ApplicationService.FallbackMessagesDistinct`) |
| Register.ValidateNameMeaning | src/pages/Register.jsx:45-64 | the name check is silent exactly on an empty name or 2 to 50 letters and whitespace; the charset message precedes the length messages |
| Register.ValidateName | src/pages/Register.jsx:45-64 | `validateName`, with its messages (meaning stated by `Register.ValidateNameMeaning`) |
| Register.ValidateUsernameMeaning | src/pages/Register.jsx:66-84 | the username check is silent exactly on 3 to 20 characters of `[A-Za-z0-9_-]`; messages in the order required, charset, length |
| Register.ValidateUsername | src/pages/Register.jsx:66-84 | `validateUsername`, with its messages (meaning stated by `Register.ValidateUsernameMeaning`) |
| Register.ValidateEmailMeaning | src/pages/Register.jsx:86-96 | the e-mail is required and accepted exactly when it is in the language of the pattern |
| Register.ValidateEmail | src/pages/Register.jsx:86-96 | `validateEmail`, with its two messages (meaning stated by `Register.ValidateEmailMeaning`) |
| Register.ValidatePasswordMeaning | src/pages/Register.jsx:98-121 | the password check is silent exactly on 8 or more UTF-16 units with an upper-case letter, a lower-case letter and a digit; otherwise the first failing rule in that order |
| Register.ValidatePassword | src/pages/Register.jsx:98-121 | `validatePassword`, with its five messages (meaning stated by `Register.ValidatePasswordMeaning`) |
| Register.PasswordLengthBoundary | src/pages/Register.jsx:101-103 | `Abcdef1` (seven) is too short and `Abcdefg1` (eight) is accepted |
| Register.LowerCasePasswordRejected | src/pages/Register.jsx:106-108 | eight characters without a capital fail on the upper-case rule |
| Register.ValidateMobileMeaning | src/pages/Register.jsx:123-138 | the mobile check is silent exactly on an empty or accepted number, with one message otherwise |
| Register.ValidateMobile | src/pages/Register.jsx:123-138 | `validateMobile`, with its message (meaning stated by `Register.ValidateMobileMeaning`) |
| Register.BareNumberWith91Refused | src/pages/Register.jsx:127-135 | a bare `9123456789` is refused |
| Register.ConfirmationMessage | src/pages/Register.jsx:170-198 | the confirmation message is set exactly when the two passwords differ |
| Register.ChangeMessageMeaning | src/pages/Register.jsx:150-175 | the keystroke message of each checked field is empty exactly when the new value meets that field's rule; other fields get none |
| Register.ChangeMessage | src/pages/Register.jsx:150-175 | the keystroke handler's message for one field (meaning stated by `Register.ChangeMessageMeaning`) |
| Register.SubmitMessages | src/pages/Register.jsx:192-200 | the submission computes a message for exactly the seven fields |
| Register.BlockedIffSomeFieldSet | src/pages/Register.jsx:205 | a seven-field message map blocks exactly when one message is set |
| Register.MessagesEmptyIff | src/pages/Register.jsx:192-200 | the seven messages are empty exactly when the seven values meet their rules |
| Register.SubmitGateIff | src/pages/Register.jsx:192-208 | a submission passes the gate exactly when every field meets its rule and the passwords agree |
| Register.RegisterForm.constructor | src/pages/Register.jsx:19-31 | the form starts with seven empty fields, no messages, no server errors, not loading |
| Register.RegisterForm.HandleChange | src/pages/Register.jsx:141-186 | only the named entry of the form data and of the messages changes, and a truthy server error for that field is blanked |
| Register.RegisterForm.ValidateAll | src/pages/Register.jsx:192-205 | all seven messages replace the old ones, and the result says whether none is set |
| Register.RegisterForm.HandleSubmit | src/pages/Register.jsx:188-211 | the messages are recomputed; when none is set, the server errors are cleared and loading starts; otherwise nothing else changes |
| Register.PasswordChangeKeepsConfirmationMessage | src/pages/Register.jsx:167-180 | typing a password leaves the confirmation's message as it was |
| Patterns.MatchesEmailIffRegex | src/pages/Register.jsx:90-91 | the scan accepts exactly the strings of `^[^\s@]+@[^\s@]+\.[^\s@]+$` |
| Patterns.MatchesEmail | src/pages/Register.jsx:90-91 | the e-mail pattern test as a scan (meaning stated by `Patterns.MatchesEmailIffRegex`) |
| Patterns.MatchesEmailInRegex | src/pages/Register.jsx:90-91 | every string the scan accepts is in the pattern's language |
| Patterns.RegexInMatchesEmail | src/pages/Register.jsx:90-91 | every string in the pattern's language is accepted by the scan |
| Patterns.MatchedEmailHasOneAt | src/pages/Register.jsx:90 | an accepted address has exactly one `@` and no whitespace |
| Patterns.StripSeparators | src/pages/Register.jsx:127 | stripping leaves no space, hyphen or `+` and never lengthens the string |
| Patterns.StripSeparatorsAppend | src/pages/Register.jsx:127 | stripping works piecewise |
| Patterns.StripSeparatorsKeepsClean | src/pages/Register.jsx:127 | a string without separators is left as it is |
| Patterns.DropCountryCode | src/pages/Register.jsx:128 | one leading `91` is removed when present, and only then |
| Patterns.MobileAcceptedIff | src/pages/Register.jsx:127-133 | after stripping, an accepted number is ten valid digits not starting with `91`, or `91` and ten valid digits |
| Patterns.MobileAccepted | src/pages/Register.jsx:127-133 | the mobile-number pattern test after stripping (meaning stated by `Patterns.MobileAcceptedIff`) |
| Patterns.DigitsAreClean | src/pages/Register.jsx:127 | a string of digits has nothing to strip |
| Patterns.SeparatorIgnored | src/pages/Register.jsx:127 | inserting a space, hyphen or `+` anywhere does not change the verdict |
| Patterns.BareNumberStartingWith91Rejected | src/pages/Register.jsx:128-133 | every bare ten-digit number starting with `91` is refused |
| Patterns.BareNumberAccepted | src/pages/Register.jsx:127-133 | a valid ten-digit number not starting with `91` is accepted |
| Patterns.CodedNumberAccepted | src/pages/Register.jsx:127-133 | `91` before a valid ten-digit number is accepted |
| Patterns.RejectedExample | src/pages/Register.jsx:127-133 | `9123456789` is refused |
| Patterns.AcceptedExamples | src/pages/Register.jsx:127-133 | `9876543210` and `919876543210` are accepted |
| Patterns.GroupedNumberAccepted | src/pages/Register.jsx:127-133 | `+91 ddddd-ddddd` is accepted when its ten digits are |
| Patterns.FormattedExample | src/pages/Register.jsx:127-133 | `+91 98765-43210` is accepted |
| ApplicationDialog.ValidateContactNameMeaning | src/components/ApplicationDialog.jsx:41-48 | the contact name check is silent exactly on letters, whitespace and periods, with no length rule |
| ApplicationDialog.ValidateContactName | src/components/ApplicationDialog.jsx:41-48 | the dialog's `validateName`, with its message (meaning stated by `ApplicationDialog.ValidateContactNameMeaning`) |
| ApplicationDialog.ValidateCompanyNameMeaning | src/components/ApplicationDialog.jsx:50-55 | the company name check is silent exactly on 2 to 100 UTF-16 units; required, too short and too long each have their message |
| ApplicationDialog.ValidateCompanyName | src/components/ApplicationDialog.jsx:50-55 | `validateCompanyName`, with its three messages (meaning stated by `ApplicationDialog.ValidateCompanyNameMeaning`) |
| ApplicationDialog.CompanyNameExamples | src/components/ApplicationDialog.jsx:52 | `A` is too short and `Acme Corp` is accepted |
| ApplicationDialog.AstralCharacterLongEnough | src/components/ApplicationDialog.jsx:52 | one character outside the Basic Multilingual Plane counts as two and passes |
| ApplicationDialog.PhoneAgreesWithRegistration | src/components/ApplicationDialog.jsx:57-74 | the phone check passes exactly the numbers the sign-up mobile check passes; only the message differs |
| ApplicationDialog.ValidatePhone | src/components/ApplicationDialog.jsx:57-74 | `validatePhone`, with its message (meaning stated by `ApplicationDialog.PhoneAgreesWithRegistration`) |
| ApplicationDialog.ValidateContactEmailMeaning | src/components/ApplicationDialog.jsx:76-83 | the address is optional, and a non-empty one passes exactly as on the sign-up form |
| ApplicationDialog.ValidateContactEmail | src/components/ApplicationDialog.jsx:76-83 | the dialog's `validateEmail` (meaning stated by `ApplicationDialog.ValidateContactEmailMeaning`) |
| ApplicationDialog.ValidateUrlMeaning | src/components/ApplicationDialog.jsx:85-93 | the URL check is silent exactly on an empty URL or one the parser accepts |
| ApplicationDialog.ValidateUrl | src/components/ApplicationDialog.jsx:85-93 | `validateURL` over the given URL parser (meaning stated by `ApplicationDialog.ValidateUrlMeaning`) |
| ApplicationDialog.LoadedForm | src/components/ApplicationDialog.jsx:95-126 | the loaded form has all eleven fields; each is the record's field when that is truthy, and otherwise `applied` for the status, today's date for the date and the empty string for the rest (all fallbacks when there is no record) |
| ApplicationDialog.NullIfEmpty | src/components/ApplicationDialog.jsx:188-196 | `value \|\| null` is null exactly for the empty string and the value otherwise |
| ApplicationDialog.CleanMeaning | src/components/ApplicationDialog.jsx:185-197 | each of the seven optional fields is sent as `null` exactly when it is empty and as it is otherwise; the four required fields pass through |
| ApplicationDialog.Clean | src/components/ApplicationDialog.jsx:185-197 | `cleanedData` (meaning stated by `ApplicationDialog.CleanMeaning`) |
| ApplicationDialog.LoadThenCleanRoundTrip | src/components/ApplicationDialog.jsx:97-197 | loading a well-formed record and saving it unchanged sends the record back |
| ApplicationDialog.MissingStatusLoadsAsApplied | src/components/ApplicationDialog.jsx:31-115 | a missing status loads as `applied`, one of the six menu values |
| ApplicationDialog.UncheckedFieldsNeverComplain | src/components/ApplicationDialog.jsx:138-156 | typing into a field without a check, the status included, never produces a message |
| ApplicationDialog.ChangeMessage | src/components/ApplicationDialog.jsx:136-156 | the keystroke handler's message for one field (unchecked fields: `ApplicationDialog.UncheckedFieldsNeverComplain`) |
| ApplicationDialog.SubmitMessages | src/components/ApplicationDialog.jsx:168-174 | the submission computes a message for exactly the five checked fields |
| ApplicationDialog.BlockedIffSomeFieldSet | src/components/ApplicationDialog.jsx:179 | a five-field message map blocks exactly when one message is set |
| ApplicationDialog.MessagesEmptyIff | src/components/ApplicationDialog.jsx:168-174 | the five messages are empty exactly when the five values meet their rules |
| ApplicationDialog.SubmitGateIff | src/components/ApplicationDialog.jsx:168-182 | `onSave` is reached exactly when every checked field meets its rule |
| ApplicationDialog.SubmitIgnoresUncheckedFields | src/components/ApplicationDialog.jsx:168-174 | changing an unchecked field changes neither the messages nor the verdict |
| ApplicationDialog.DialogForm.constructor | src/components/ApplicationDialog.jsx:15-29 | the dialog starts blank with status `applied`, today's date and no messages |
| ApplicationDialog.DialogForm.Load | src/components/ApplicationDialog.jsx:95-126 | the load effect replaces the form and drops every message |
| ApplicationDialog.DialogForm.HandleChange | src/components/ApplicationDialog.jsx:128-162 | only the named entry of the form data and of the messages changes |
| ApplicationDialog.DialogForm.ValidateAll | src/components/ApplicationDialog.jsx:168-179 | the five messages replace the old ones, and the result says whether none is set |
| ApplicationDialog.DialogForm.HandleSubmit | src/components/ApplicationDialog.jsx:164-200 | the cleaned payload is handed on exactly when no message is set |
| StatisticsCards.Count | src/components/StatisticsCards.jsx:11 | a missing count shows as 0, a reported one as reported |
| StatisticsCards.CardsLayoutFixed | src/components/StatisticsCards.jsx:8-44 | five cards, Total, Applied, Interviews, Offers, Rejected, whatever the counts |
| StatisticsCards.Cards | src/components/StatisticsCards.jsx:8-44 | the five cards (layout and values stated by `StatisticsCards.CardsLayoutFixed` and `StatisticsCards.CardValues`) |
| StatisticsCards.CardValues | src/components/StatisticsCards.jsx:15-41 | each card shows its status's count or 0; Interviews adds the three interview stages |
| StatisticsCards.EmptyStatsShowZero | src/components/StatisticsCards.jsx:11-39 | with no counts every card shows 0 |
| StatisticsCards.TotalAsReported | src/components/StatisticsCards.jsx:11 | the total is shown as reported and does not depend on any other count |
| StatisticsCards.CardsNonNegative | src/components/StatisticsCards.jsx:11-39 | non-negative counts give non-negative cards |
| ApplicationCard.StatusLabel | src/components/ApplicationCard.jsx:82 | the label has the status's length, each `_` a space and each lower-case letter its capital |
| ApplicationCard.StatusLabelMeaning | src/components/ApplicationCard.jsx:82 | the label has no `_` and no lower-case letter, and is its own label |
| ApplicationCard.InterviewScheduledLabel | src/components/ApplicationCard.jsx:82 | `interview_scheduled` is shown as `INTERVIEW SCHEDULED` |
| ApplicationCard.ColorOf | src/components/ApplicationCard.jsx:83 | a status gets the map's colour exactly when it is a key of the colour map, an inherited member exactly when it names one of `Object.prototype`, and `undefined` otherwise |
| ApplicationCard.ColorsCoverStatuses | src/components/ApplicationCard.jsx:10-17 | the colour map covers exactly the six menu statuses, with six different colours |
| ApplicationCard.UnknownStatusHasNoColor | src/components/ApplicationCard.jsx:83 | a status outside the menu gets no colour of the map, and `undefined` unless it names an inherited member |
| ApplicationCard.InheritedMemberExample | src/components/ApplicationCard.jsx:83 | the status `toString` picks up the inherited member, not a colour |
| LandingPage.StepsLandOnASlide | src/pages/LandingPage.jsx:46-52 | from any non-negative index one step either way lands on a slide |
| LandingPage.StepsAreInverse | src/pages/LandingPage.jsx:46-52 | back after forward and forward after back return to the slide |
| LandingPage.NextIndex | src/pages/LandingPage.jsx:47 | the next slide, `(prev + 1) % slides.length` (partners: `LandingPage.StepsLandOnASlide`, `LandingPage.StepsAreInverse`) |
| LandingPage.PrevIndex | src/pages/LandingPage.jsx:51 | the previous slide, `(prev - 1 + slides.length) % slides.length` (same partners) |
| LandingPage.NextIterIsAddition | src/pages/LandingPage.jsx:47 | `k` forward steps advance by `k` modulo three |
| LandingPage.FullCycle | src/pages/LandingPage.jsx:47 | three forward steps come back to the start |
| LandingPage.Slideshow.constructor | src/pages/LandingPage.jsx:25 | the slideshow starts on the first slide |
| LandingPage.Slideshow.NextSlide | src/pages/LandingPage.jsx:46-48 | the right arrow moves to the next slide and the index stays on a slide |
| LandingPage.Slideshow.PrevSlide | src/pages/LandingPage.jsx:50-52 | the left arrow moves to the previous slide and the index stays on a slide |
| LandingPage.Slideshow.Tick | src/pages/LandingPage.jsx:35-40 | a timer firing is a step forward |
| LandingPage.Slideshow.GoToSlide | src/pages/LandingPage.jsx:42-217 | a dot sets the index as given, which stays on a slide when the dot's index does |
| App.GuardMeaning | src/App.jsx:11-23 | the guard shows the spinner exactly while loading, the page exactly for a signed-in user, and otherwise redirects to `/login` |
| App.Guard | src/App.jsx:11-23 | `ProtectedRoute`'s three outcomes (meaning stated by `App.GuardMeaning`) |
| App.IsPageRefresh | src/App.jsx:32 | the reload test on the history state (a later entry is no reload, `App.LaterEntryIsNoRefresh`) |
| App.LaterEntryIsNoRefresh | src/App.jsx:32 | a history entry whose `idx` is a number other than 0 is not taken for a reload |
| App.Browser.constructor | src/App.jsx:26-28 | the browser state as given |
| App.Browser.RunRefreshHandler | src/App.jsx:30-41 | on a reload away from `/` the page is recorded as `intendedPage` and the location becomes `/`; otherwise nothing changes |
| App.ResolveInFindsFirst | src/App.jsx:48-67 | the first route whose path matches the location, ignoring ASCII case and trailing slashes, decides the screen |
| App.UnmatchedPathBlank | src/App.jsx:48-67 | a location no route's path matches, even ignoring ASCII case and trailing slashes, shows nothing |
| App.OnlyDashboardGuarded | src/App.jsx:50-66 | the spinner and the redirect to `/login` appear exactly on locations matching `/dashboard` (any case, any trailing slashes); every other location shows the same whatever the session |
| App.ResolveMeaning | src/App.jsx:46-69 | every location matching `/`, `/login` or `/register` shows that page whatever the session; one matching `/dashboard` follows the guard; any other shows nothing |
| App.Resolve | src/App.jsx:46-69 | the screen the route table renders for a location (meaning stated by `App.ResolveMeaning`) |
| App.RoutesExclusive | src/App.jsx:50-66 | a location matches at most one of the four route paths, so the order of the routes does not matter |
| App.LandingResolves | src/App.jsx:50 | a location matching `/` shows the landing page |
| App.LoginResolves | src/App.jsx:53 | a location matching `/login` shows the login page |
| App.RegisterResolves | src/App.jsx:56 | a location matching `/register` shows the registration page |
| App.DashboardResolves | src/App.jsx:59-66 | a location matching `/dashboard` shows what the guard decides |
| App.CaseAndSlashVariants | src/App.jsx:53-66 | `/Dashboard/` resolves as `/dashboard` and `/LOGIN` shows the login page |
| App.DashboardAfterLogout | src/App.jsx:22 | after a logout and a start-up, the dashboard redirects to `/login` |

## Left out

- Network and asynchrony: axios, promises and `await` are not modelled. Each remote call's outcome is an argument, so request ordering, retries and token refresh do not appear. None of App.jsx, AuthContext.jsx, api.js, applicationService.js, Register.jsx, ApplicationDialog.jsx, ApplicationCard.jsx, StatisticsCards.jsx or LandingPage.jsx does any of them.
- `validateURL` depends on the browser's URL parser, `new URL(url)`. It is the parameter `urlParses`.
- Dates and timers: `new Date()`, `toISOString`, `toLocaleDateString`, `setInterval` and `setTimeout` are not modelled. Today's date is a parameter, and a timer firing is a call to `LandingPage.Slideshow.Tick`.
- Unicode: `\s` is the fixed ECMAScript set of whitespace code points.
- ApplicationCard.StatusLabel: upper-cases ASCII letters only. JavaScript's `toUpperCase` also maps other letters, some of them to two characters. The equal-length claim is therefore proved for the ASCII mapping.
- Register.RegisterForm.HandleSubmit: stops after the gate, with the server errors cleared and loading set. The form then calls `Register` from the session context, but the context provides only `register` (src/context/AuthContext.jsx:63). That call is undefined, so the success message, the navigation and the reset of `loading` that follow are not modelled.
- `intendedPage` is written by the reload handler in App.jsx and read by none of App.jsx, AuthContext.jsx, Login.jsx, Register.jsx, Dashboard.jsx or LandingPage.jsx. App.Browser.RunRefreshHandler only changes the location's path; the history entry that `navigate('/', { replace: true })` replaces is not modelled.
- AuthContext.AuthProvider.Login: treats the server's `access` and `refresh` as strings. A reply without them would store the text `undefined`, which is not modelled.
- StatisticsCards.Count: counts are integers. A count that is not a number (a string would be concatenated by `+`) is not modelled.
- ApplicationService.RequestFor: record ids are non-negative integers written in decimal. Other id values are not modelled.
- The literal query `applications/?status=rejected&search=acme` is not stated on its own. ApplicationService.BothFiltersListPath states it for every pair of filters made of unreserved characters, this one included.
- App.Resolve: matches the location as the browser gives it. The router percent-decodes the location before matching, so `/%64ashboard` would match `/dashboard`; that decoding is not modelled.
- Api.RequestConfig.constructor: starts from the instance's own configured headers. The defaults axios merges in before the interceptors run, such as `Accept: application/json, text/plain, */*`, are not modelled; the interceptor leaves every header but `Authorization` alone in any case.
- ApplicationCard.ColorOf: an inherited member is returned by name. What the chip does with a function as its `color` is not modelled.
- Layout, styling and icons are not modelled. Neither are src/theme.js, a constant, and src/pages/Login.jsx and src/pages/Dashboard.jsx, which only forward to `login`/`logout` and navigate.
