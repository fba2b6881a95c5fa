# AIFirstCare claim portal — a Dafny model of its rules

AIFirstCare is a React Native front end for health-insurance claims. Hospitals, staff and patients use it to
log in, search claim status, submit claims with supporting documents and export summary figures. The data is
mock data. The behaviour worth checking sits in small rules inside its state handlers. This project states
those rules as pure Dafny functions over immutable datatypes and proves what the screens rely on:

- the field validators;
- the CSV export and its quoting;
- the claim-form validation and its error map;
- the claim filters;
- the list edits of the submission form;
- the stage colour and description tables;
- the summary export row;
- login routing in both application shells.

Every React handler becomes a synchronous state-to-state function. Timers, network delays and loading spinners
between the start and the end of a handler are not modelled. "Now", the date parser and the date formatter are
parameters.

One Dafny module corresponds to each source file. Three helper modules are shared:

- `Options`: the optional value;
- `Text`: ASCII character classes, UTF-16 `length`, `toLowerCase`, `trim`, `includes`, `join` and `split`;
- `Seqs`: order-preserving `filter`, subsequences, and an optional filter step.

`Dashboards` is the role-to-dashboard routing that `App` and `DemoApp` share.

## Model

| member | source | states |
|---|---|---|
| Validation.IsRequired | src/utils/validation.ts:18-20 | A value is required-valid iff it has a non-whitespace character, so trimming leaves something. |
| Validation.LengthBoundsInclusive | src/utils/validation.ts:23-30 | Both length checks are inclusive: together they hold iff min ≤ length ≤ max, where length counts UTF-16 code units as `.length` does. |
| Validation.LengthBetweenCharsAndTwice | src/utils/validation.ts:23-30 | The UTF-16 length lies between the number of characters and twice that. It equals the number of characters iff no character lies outside the Basic Multilingual Plane. |
| Validation.EmailShapeIff | src/utils/validation.ts:5-8 | The email pattern accepts iff the address has no whitespace, exactly one '@' after a non-empty local part, and a '.' in the domain with text on both sides. |
| Validation.CheckPassword | src/utils/validation.ts:11-15 | A one-pass scan decides the password pattern: length ≥ 8, a lower-case letter, an upper-case letter, a digit, and only characters of [a-zA-Z0-9@$!%*?&]. |
| Validation.PhoneIgnoresSpace | src/utils/validation.ts:33-36 | Inserting or deleting whitespace anywhere never changes whether a phone number is accepted. |
| Validation.PhoneShape | src/utils/validation.ts:33-36 | A phone number is accepted iff, spaces removed, it is 1 to 16 digits with a non-zero first digit, or a '+' followed by such digits. |
| Validation.GetErrorMessage | src/utils/validation.ts:39-56 | A message is never empty. A (field, type) pair in the table gets its own message, and every other pair gets 'Invalid input'. |
| Validation.ValidateClaimNumber | src/utils/validation.ts:68-73 | No error iff the value is empty or all digits; otherwise the claim-number message. |
| Validation.ValidatePolicyNumber | src/utils/validation.ts:75-80 | No error iff the value is empty or all ASCII letters and digits; otherwise the policy-number message. |
| Validation.ValidatePatientName | src/utils/validation.ts:82-87 | No error iff the value is empty or only letters and whitespace; otherwise the patient-name message. |
| Text.Trim | src/utils/validation.ts:19 | The trimmed string is a slice of the input with only whitespace cut from both ends, and it is empty iff the input is all whitespace. |
| Text.Utf16Length | src/utils/validation.ts:24 | `length` counts UTF-16 code units: at least one and at most two per character, and exactly one per character iff none lies outside the Basic Multilingual Plane. |
| Text.ToLowerIdempotent | src/components/Claim/ClaimStatusSearch.tsx:196 | Lower-casing twice is lower-casing once. |
| Text.SplitJoin | src/utils/csvExport.ts:39 | Joining pieces that do not contain the separator, then splitting, gives the pieces back. |
| CsvExport.ExportToCsv | src/utils/csvExport.ts:16-18 | The output is empty exactly when there are no records. |
| CsvExport.FilenameIrrelevant | src/utils/csvExport.ts:14 | The file name never affects the text produced. |
| CsvExport.ExportLines | src/utils/csvExport.ts:21-39 | With no line break in any header or cell, the text is `records + 1` lines: first the headers (the first record's keys when none are given) joined by ',', then one line per record in order. |
| CsvExport.Escape | src/utils/csvExport.ts:30-34 | A field with ',' or '"' is wrapped in quotes; any other string is emitted verbatim. |
| CsvExport.EscapeRoundTrip | src/utils/csvExport.ts:31-33 | Stripping the outer quotes and halving the doubled quotes recovers every field. |
| CsvExport.RenderFieldIsEscape | src/utils/csvExport.ts:28-34 | Numbers and missing keys are never quoted, so each emitted cell is the escaped text of the cell, and a missing key gives "". |
| CsvExport.RowLineDecodes | src/utils/csvExport.ts:27-36 | A reference CSV record parser reads a data line back as one field per header, in header order, with "" for a missing key. |
| CsvExport.ParseJoinedEscaped | src/utils/csvExport.ts:31-35 | Escaped fields joined by ',' parse back to exactly the original fields. |
| FormValidation.ValidateForm | src/hooks/useFormValidation.ts:7-43 | Each field has an error iff its constraint fails. The constraints: a name of at least 2 UTF-16 code units after trimming; a date present and not after now; a TPA; a service; 1 to 10 documents. The map is empty iff all hold. |
| FormValidation.PatientNameLength | src/hooks/useFormValidation.ts:11-15 | A trimmed name passes the length rule iff it has at least two characters, or is one character outside the Basic Multilingual Plane. |
| FormValidation.OneEmojiIsLongEnough | src/hooks/useFormValidation.ts:13 | A single emoji passes the two-character rule, and " a " fails it. |
| FormValidation.ValidateFormMessages | src/hooks/useFormValidation.ts:11-39 | Which message each failing field gets: "required" against "too short", "required" against "in the future", and "at least one" against "maximum 10". |
| FormValidation.ClearErrors | src/hooks/useFormValidation.ts:45-51 | Clearing one field removes only that key; clearing with no field empties the map. |
| FormValidation.SetFieldError | src/hooks/useFormValidation.ts:53-55 | Setting a field's error stores that message and leaves every other key as it was. |
| FormValidation.ErrorEditsCommute | src/hooks/useFormValidation.ts:45-55 | Clearing undoes a set of the same field, and setting or clearing twice is the same as doing it once. |
| ClaimTypes.StageNameRoundTrip | src/types/claim.types.ts:45-52 | Stage values and names correspond one to one: a name parses back to its stage, and no two stages share a name. |
| ClaimTypes.AllStagesEnumerates | src/types/claim.types.ts:45-52 | The enum's value list has six entries, contains every stage, and holds six distinct strings. |
| ClaimTypes.StageIgnoringCase | src/types/claim.types.ts:13 | A free-text stage matches a stage iff its lower-case form equals that stage's lower-case name; otherwise there is no stage. |
| ClaimTypes.FindHospital | src/components/Claim/ClaimStatusSearch.tsx:187 | `find` returns the first hospital with the id, or nothing exactly when no hospital carries it. |
| ClaimTypes.FormFieldNamesDistinct | src/types/claim.types.ts:94-100 | The five error keys are five distinct field names. |
| AuthTypes.RoleNameRoundTrip | src/types/auth.types.ts:9-15 | The role strings 'super_admin', 'admin', 'staff', 'hospital' and 'user' correspond one to one with the five roles. |
| ClaimStatusSearch.ApplyFiltersIsMatching | src/components/Claim/ClaimStatusSearch.tsx:168-217 | Each step runs only when its option is set, and the staged result equals one filter by the conjunction. The conjuncts: hospital name, exact stage, case-insensitive text, and date bounds. |
| ClaimStatusSearch.ApplyFiltersMeaning | src/components/Claim/ClaimStatusSearch.tsx:171-217 | The result is an ordered subsequence of the claims. It holds exactly the claims that satisfy every active filter, and it is the whole list when no option is in effect. |
| ClaimStatusSearch.ApplyFiltersIdempotent | src/components/Claim/ClaimStatusSearch.tsx:168-217 | Filtering the filtered list again with the same options changes nothing. |
| ClaimStatusSearch.UnknownHospitalMatchesNothing | src/components/Claim/ClaimStatusSearch.tsx:185-189 | A hospital id that no hospital has leaves no claims. |
| ClaimStatusSearch.DateStepIsBounds | src/components/Claim/ClaimStatusSearch.tsx:203-216 | The date branches keep a claim iff its date is ≥ the from-date when one is set and ≤ the to-date when one is set. Both bounds are inclusive. |
| ClaimStatusSearch.ActiveFiltersCount | src/components/Claim/ClaimStatusSearch.tsx:250-259 | The count is the number of option fields in effect, at most 5, and 0 exactly when the no-filter branch runs. |
| ClaimStatusSearch.LoadHospitals | src/components/Claim/ClaimStatusSearch.tsx:122-140 | Loading installs the mock hospitals, clears loading and the error, and leaves the claims, options, filtering flag and page alone. |
| ClaimStatusSearch.LoadClaims | src/components/Claim/ClaimStatusSearch.tsx:142-161 | Loading installs exactly the mock claims with a matching total, clears loading and the error, and leaves the hospitals, options, filtering flag and page alone. |
| ClaimStatusSearch.HandleFilterChange | src/components/Claim/ClaimStatusSearch.tsx:238-240 | The new options are stored, and every other part of the state is unchanged, so the total stays consistent. |
| ClaimStatusSearch.RunFilters | src/components/Claim/ClaimStatusSearch.tsx:163-231 | The list becomes exactly the mock claims matching the stored options, and the total is its length. Filtering ends, and the hospitals, loading flag, error and page are kept. |
| ClaimStatusSearch.RunFiltersIdempotent | src/components/Claim/ClaimStatusSearch.tsx:168 | Filtering restarts from the full mock list, so running it twice equals running it once. |
| ClaimStatusSearch.TotalClaimsInvariant | src/components/Claim/ClaimStatusSearch.tsx:150-151 | Every handler keeps `totalClaims` equal to the list's length. |
| ClaimSearchInterface.ValidateForm | src/components/Claim/ClaimSearchInterface.tsx:83-143 | All five checks run and earlier errors are overwritten. The error map has an entry for exactly the failing checks, and the form passes iff that map is empty. |
| ClaimSearchInterface.RunValidatorsForgetsPrevious | src/components/Claim/ClaimSearchInterface.tsx:135-143 | After the five set-or-clear steps, the errors depend only on which checks fail, never on the previous errors. |
| ClaimSearchInterface.IdentifierChecksAgree | src/components/Claim/ClaimSearchInterface.tsx:108-133 | The screen's three identifier checks fail exactly when the shared validators reject the trimmed value. |
| ClaimSearchInterface.BlankIdentifiersPassCharacterChecks | src/components/Claim/ClaimSearchInterface.tsx:92-133 | All-blank identifiers pass the three character checks but fail the at-least-one check. |
| ClaimSearchInterface.SearchDisabled | src/components/Claim/ClaimSearchInterface.tsx:145-149 | The button is enabled iff a hospital is chosen, some raw identifier is non-empty, and no error is set. |
| ClaimSearchInterface.SpacesEnableButtonButFailValidation | src/components/Claim/ClaimSearchInterface.tsx:92-149 | A claim number of one space enables the button (raw check), yet validation then rejects the form (trimmed check). |
| ClaimSearchInterface.HandleInputChange | src/components/Claim/ClaimSearchInterface.tsx:151-159 | Typing sets only that field, drops that field's error and the general error, and keeps every other error, the selected hospital, the loading flag and the results. |
| ClaimSearchInterface.HandleHospitalSelect | src/components/Claim/ClaimSearchInterface.tsx:161-164 | Selecting stores the hospital and its id, or "" for none, and drops the hospital and general errors. The other fields, the other errors, the results, the searched flag and the loading flag are kept. |
| ClaimSearchInterface.SearchClaimsIsMatching | src/components/Claim/ClaimSearchInterface.tsx:179-202 | The results are the ordered subsequence of the mock list with the selected hospital's name whose identifiers contain each non-empty field, ignoring case. |
| ClaimSearchInterface.HandleSearch | src/components/Claim/ClaimSearchInterface.tsx:166-204 | A failed validation changes only the errors. A passed one clears the errors and loading, marks the search done and shows the matching results; the form and the selected hospital are kept. |
| ClaimSearchInterface.SearchResultsMatch | src/components/Claim/ClaimSearchInterface.tsx:179-204 | After a valid search every result is a mock claim that matches the form. |
| ClaimSearchInterface.HandleClearSearch | src/components/Claim/ClaimSearchInterface.tsx:212-223 | Clearing restores the empty form, no selection, no results, not searched, and no errors; the loading flag is kept. |
| ClaimSearchInterface.ClearedSearchIsDisabled | src/components/Claim/ClaimSearchInterface.tsx:145-149 | After clearing, the search button is disabled. |
| ClaimSearchInterface.ResultBadge | src/components/Claim/ClaimSearchInterface.tsx:225-242 | The result badge uses the same colour table as the list row and the status card: grey exactly for an unknown stage. |
| ClaimFilter.HandleInputChange | src/components/Claim/ClaimFilter.tsx:42-47 | "" unsets the field, and any other value is stored verbatim. Every other field is unchanged. |
| ClaimFilter.InputChangeNeverStoresEmpty | src/components/Claim/ClaimFilter.tsx:45 | No edit ever leaves an empty string in an option. |
| ClaimFilter.InputChangesCompose | src/components/Claim/ClaimFilter.tsx:42-47 | The last edit of a field wins, and edits of different fields commute. |
| ClaimFilter.HandleApply | src/components/Claim/ClaimFilter.tsx:30-33 | Apply forwards the local options unchanged and closes the modal. |
| ClaimFilter.HandleClear | src/components/Claim/ClaimFilter.tsx:35-40 | Clear empties every option, forwards the empty set and closes the modal. |
| ClaimFilter.ClearShowsEverything | src/components/Claim/ClaimFilter.tsx:35-40 | Once cleared options are forwarded, the list shows every claim and the badge count is 0. |
| ClaimFilter.HospitalChipsExclusive | src/components/Claim/ClaimFilter.tsx:84-111 | With distinct non-empty ids, after tapping a hospital chip exactly that chip is highlighted; after "All Hospitals" only that chip is. |
| ClaimFilter.StageChoices | src/components/Claim/ClaimFilter.tsx:49 | The status chips list the six stage values in enum order. |
| ClaimFilter.StageChoicesCover | src/components/Claim/ClaimFilter.tsx:49 | Every stage has a chip, and no two chips carry the same value. |
| HospitalPicker.FilteredHospitals | src/components/Claim/HospitalPicker.tsx:31-33 | The list shown is the ordered subsequence of hospitals whose name contains the query, ignoring case. |
| HospitalPicker.EmptyQueryListsAll | src/components/Claim/HospitalPicker.tsx:31-33 | An empty query shows every hospital. |
| HospitalPicker.LongerQueryNarrows | src/components/Claim/HospitalPicker.tsx:31-33 | Typing more characters can only remove hospitals from the list. |
| HospitalPicker.HandleSelect | src/components/Claim/HospitalPicker.tsx:35-39 | Selecting a hospital or none forwards the choice, closes the dropdown and clears the query. |
| HospitalPicker.ToggleDropdown | src/components/Claim/HospitalPicker.tsx:41-46 | Toggling flips the open flag, and opening clears the query. |
| HospitalPicker.ToggleTwiceFromClosed | src/components/Claim/HospitalPicker.tsx:41-46 | Opening and closing a closed picker leaves it closed with an empty query. |
| HospitalPicker.EmptyMessage | src/components/Claim/HospitalPicker.tsx:129-135 | The empty-state text shows exactly when the filtered list is empty. |
| HospitalPicker.EmptyMessageMeaning | src/components/Claim/HospitalPicker.tsx:129-135 | 'No hospitals available' iff there are no hospitals and no query; 'No hospitals found' iff a query matches nothing. |
| HospitalPicker.Label | src/components/Claim/HospitalPicker.tsx:72-82 | The button shows a spinner while loading, else the selected name, else 'Select a hospital'. |
| ClaimSubmissionForm.ToggleService | src/components/Claim/ClaimSubmissionForm.tsx:109-116 | Toggling flips the id's membership and keeps every other id. An absent id is appended at the end, and the other ids keep their order. |
| ClaimSubmissionForm.ToggleTwiceRestores | src/components/Claim/ClaimSubmissionForm.tsx:112-114 | Toggling an absent id twice gives back the original list. |
| ClaimSubmissionForm.ToggleKeepsDistinct | src/components/Claim/ClaimSubmissionForm.tsx:112-114 | Toggling keeps the service ids free of duplicates. |
| ClaimSubmissionForm.NewDocuments | src/components/Claim/ClaimSubmissionForm.tsx:136-141 | One document per picked asset, in order, with the fall-back name, type, uri and size. |
| ClaimSubmissionForm.HandleDocumentPick | src/components/Claim/ClaimSubmissionForm.tsx:118-160 | The list changes iff the pick is not cancelled or failed, would not exceed 10 files, and has no file over 5 MiB. Then the new documents are appended after the old ones. Each rejection gives its alert. A pick with no assets that was neither cancelled nor failed changes nothing and shows no alert. |
| ClaimSubmissionForm.PickKeepsLimits | src/components/Claim/ClaimSubmissionForm.tsx:143-159 | A pick never breaks "at most 10 files, none over 5 MiB", and an accepted pick satisfies the form's document rule. |
| ClaimSubmissionForm.FiveMiBIsAccepted | src/components/Claim/ClaimSubmissionForm.tsx:150 | A file of exactly 5·1024·1024 bytes is accepted. |
| ClaimSubmissionForm.RemoveAt | src/components/Claim/ClaimSubmissionForm.tsx:166-171 | Removing by index deletes only that element and keeps the rest in order; an out-of-range index changes nothing. |
| ClaimSubmissionForm.RemoveKeepsLimits | src/components/Claim/ClaimSubmissionForm.tsx:166-171 | Removing a document keeps the file limits. |
| ClaimSubmissionForm.RemoveDocument | src/components/Claim/ClaimSubmissionForm.tsx:166-171 | An in-range removal deletes exactly the indexed document and keeps the rest in order. An out-of-range index changes nothing. The other fields and the errors are untouched. |
| ClaimSubmissionForm.HandleFieldChange | src/components/Claim/ClaimSubmissionForm.tsx:97-100 | Editing the name, the TPA or the date stores the value, keeps the other fields and the picker flag, and clears only that field's error. |
| ClaimSubmissionForm.HandleDateChange | src/components/Claim/ClaimSubmissionForm.tsx:102-107 | The date picker closes. A chosen date is stored, the other fields are kept, and only its error is cleared. A dismissed picker changes nothing else. |
| ClaimSubmissionForm.HandleServiceToggle | src/components/Claim/ClaimSubmissionForm.tsx:109-116 | The service id's membership flips, every other id keeps its membership, and the other fields and the errors stay as they are. |
| ClaimSubmissionForm.HandleSubmit | src/components/Claim/ClaimSubmissionForm.tsx:173-178 | Submission proceeds iff form validation finds nothing. Otherwise the 'Please fill all required fields' alert shows. The recorded errors are exactly validation's map. |
| ClaimStatusCard.StatusColor | src/components/Claim/ClaimStatusCard.tsx:20-37 | A known stage in any case gets that stage's colour triple, and any other text gets the grey default. |
| ClaimStatusCard.StageColorsShared | src/components/Claim/ClaimStatusCard.tsx:22-33 | Two stages share a triple iff they are equal or are Discharged and Settled. |
| ClaimStatusCard.StatusColorIgnoresCase | src/components/Claim/ClaimStatusCard.tsx:21 | Strings equal up to ASCII case get the same colours. |
| ClaimStatusCard.StatusColorOfStageName | src/components/Claim/ClaimStatusCard.tsx:21-33 | Any spelling of a stage name in any case gets that stage's colours. |
| ClaimStatusCard.DescriptionHasOneSentence | src/components/Claim/ClaimStatusCard.tsx:92-98 | After the lead sentence, a known stage (in any case) gets exactly its own sentence and an unknown stage gets none. |
| ClaimStatusCard.FormatDate | src/components/Claim/ClaimStatusCard.tsx:41-53 | An absent or empty date formats as ""; any other date goes through the locale formatter. |
| ClaimListItem.BadgeColors | src/components/Claim/ClaimListItem.tsx:16-35 | The badge takes the shared status table on the claim's own stage: grey exactly when the stage is unknown. |
| ClaimListItem.BadgeIgnoresOtherFields | src/components/Claim/ClaimListItem.tsx:17 | Claims whose stage text is equal ignoring case get the same badge, whatever their other fields. |
| ClaimListItem.DischargedLooksSettled | src/components/Claim/ClaimListItem.tsx:20-25 | Discharged and Settled claims share a non-default badge. |
| SummaryView.CountOf | src/components/Dashboard/SummaryView.tsx:139-144 | A stage's count comes from the breakdown, or 0 when the stage is missing. |
| SummaryView.OrAll | src/components/Dashboard/SummaryView.tsx:145-146 | An empty date bound exports as 'All'; a set one exports as itself. |
| SummaryView.ExportRow | src/components/Dashboard/SummaryView.tsx:133-147 | The row has the twelve column names in order. It holds the four totals unchanged, the six stage counts in enum order with 0 for missing stages, and the two date bounds. |
| SummaryView.HandleExport | src/components/Dashboard/SummaryView.tsx:132-163 | The export produces non-empty CSV and hands exactly that one row to the parent. |
| SummaryView.ExportHasHeaderAndValueLines | src/components/Dashboard/SummaryView.tsx:150-152 | When the typed dates have no line break, the CSV is two lines: the twelve column names joined by ',', then the export row's values in that column order. |
| SummaryView.StageColor | src/components/Dashboard/SummaryView.tsx:165-182 | Each stage's indicator colour is the border colour of that stage in the status table. |
| SummaryView.StageColorShared | src/components/Dashboard/SummaryView.tsx:165-182 | Two stages share a colour iff they are equal or are Discharged and Settled. |
| SummaryView.StageBreakdown | src/components/Dashboard/SummaryView.tsx:195-204 | One entry per stage in enum order. Each counts that stage, with 0 by default, and carries that stage's indicator colour. |
| SummaryView.BreakdownListsEachStageOnce | src/components/Dashboard/SummaryView.tsx:195-204 | Every stage is listed, and no stage is listed twice. |
| SummaryView.MetricCards | src/components/Dashboard/SummaryView.tsx:252-255 | Three cards for the hospital role, four otherwise; the cards are Total Claims, Completed Claims and In Process Claims in that order, each with its own metric, and the 'Total Hospitals' card, showing the hospital count, appears iff the role is not hospital. |
| SummaryView.DateLabel | src/components/Dashboard/SummaryView.tsx:223-229 | There is no caption iff neither bound is set. With both set it reads "from to to". With one set it is exactly that bound. |
| SummaryView.ModalApply | src/components/Dashboard/SummaryView.tsx:51-54 | Apply hands the typed pair on unchanged. |
| SummaryView.ModalClear | src/components/Dashboard/SummaryView.tsx:56-61 | Clear empties both fields and applies ("", ""). |
| SummaryView.HandleDateFilterApply | src/components/Dashboard/SummaryView.tsx:126-130 | The applied pair becomes the current bounds. |
| SummaryView.ClearResetsLabelAndExport | src/components/Dashboard/SummaryView.tsx:56-61 | After Clear the caption disappears and both bounds export as 'All'. |
| LoginScreen.ValidateField | src/components/Auth/LoginScreen.tsx:39-52 | The message is "" iff the field is valid. An empty value gets the required message. Otherwise an email not matching the unanchored pattern gets the invalid-email message, and a password under 4 UTF-16 code units the length message. |
| LoginScreen.PasswordMinimumCountsCodeUnits | src/components/Auth/LoginScreen.tsx:47 | Two emoji meet the four-character minimum, and three letters do not. |
| LoginScreen.StrictEmailPassesLoose | src/components/Auth/LoginScreen.tsx:43 | Every address the shared email validator accepts also passes the login screen's check. |
| LoginScreen.LooseIsWeaker | src/components/Auth/LoginScreen.tsx:43 | The login check is strictly weaker: "x y@z.w" passes it but not the shared validator. |
| LoginScreen.HandleInputChange | src/components/Auth/LoginScreen.tsx:54-61 | Typing updates only that field and blanks only that field's shown error. |
| LoginScreen.HandleSubmit | src/components/Auth/LoginScreen.tsx:63-81 | Errors are recorded for exactly the failing fields, with their messages. The login is forwarded, unchanged, iff there are none. |
| Dashboards.DashboardFor | src/components/Auth/DemoApp.tsx:47-62 | The end-user role, and only it, goes to the user dashboard; the hospital role, and only it, to the hospital dashboard. |
| Dashboards.DashboardForIsBijective | src/App.tsx:105-119 | Routing is a bijection: distinct roles get distinct dashboards, and every dashboard belongs to one role. |
| DemoApp.HandleLogin | src/components/Auth/DemoApp.tsx:18-74 | Login succeeds iff the email is in the credential table and the password is '1234'. On success the user has that email and the table's role, and the screen is that role's dashboard. On failure the error message is set and the screen and user stay. Loading always ends. |
| DemoApp.CredentialsRouteInjectively | src/components/Auth/DemoApp.tsx:27-62 | Two successful logins land on the same screen iff they use the same address. |
| DemoApp.WrongPasswordFails | src/components/Auth/DemoApp.tsx:37 | A password other than '1234' never logs in. |
| DemoApp.Rendered | src/components/Auth/DemoApp.tsx:99-123 | The renderer shows nothing exactly when it is on the user dashboard with no user signed in; otherwise it shows the current screen. |
| DemoApp.LoginRendersDashboard | src/components/Auth/DemoApp.tsx:39-62 | Every successful login renders its role's dashboard. |
| DemoApp.HandleLogout | src/components/Auth/DemoApp.tsx:84-88 | Logout clears the user and the error and returns to the login screen. |
| DemoApp.HandleClaimStatusSearch | src/components/Auth/DemoApp.tsx:90-92 | Opens the claim-status search and keeps the user, the login error and the loading flag. |
| DemoApp.HandleBackToLogin | src/components/Auth/DemoApp.tsx:94-96 | Returns to the login screen and keeps the user, the login error and the loading flag. |
| DemoApp.SearchAndBackRestores | src/components/Auth/DemoApp.tsx:90-96 | From the login screen, opening the search and going back restores the state. |
| DemoApp.LoginThenLogout | src/components/Auth/DemoApp.tsx:18-88 | Any login followed by logout ends in the initial state. |
| App.MockUsersWellFormed | src/App.tsx:22-64 | Each mock user is keyed by its own email and has one permission, and only the hospital user carries a hospital id. |
| App.SameAccountsAsDemo | src/App.tsx:22-64 | The mock users are exactly the demo credential table's addresses, with the same roles. |
| App.HandleLogin | src/App.tsx:13-79 | Authentication succeeds iff the email is a mock user and the password is '1234', and it signs in that user. On failure the error is set and the session stays. Loading always ends. |
| App.SameLoginsAsDemo | src/App.tsx:66-68 | Both shells accept exactly the same logins. |
| App.HandleLogout | src/App.tsx:81-85 | Logout clears the user, the authenticated flag and the error. |
| App.CurrentView | src/App.tsx:92-130 | While loading, the login screen shows. A dashboard shows iff someone is authenticated and signed in, and it is that user's role's dashboard. |
| App.LoginShowsRoleDashboard | src/App.tsx:66-119 | A successful login shows its role's dashboard, the same one the demo shell routes to. |
| App.LogoutShowsLogin | src/App.tsx:81-130 | After logout the login screen shows. |
| Seqs.FilterIsSubsequence | src/components/Claim/ClaimStatusSearch.tsx:186 | `filter` keeps an ordered subsequence. |
| Seqs.FilterFilter | src/components/Claim/ClaimStatusSearch.tsx:185-217 | Two successive filters are one filter by the conjunction. |
| Seqs.FilterDistinct | src/components/Claim/ClaimSubmissionForm.tsx:113 | Filtering a duplicate-free list keeps it duplicate-free. |

## Left out

- Rendering, style sheets and style constants: presentational, no behaviour.
- The five dashboards' own content and the loading and empty-state views: these are hard-coded mock figures and static text. Only which dashboard is routed to is modelled.
- Timers and `async`/`await`: each handler is one synchronous step from its start state to its final state. Loading flags in between and React batching are not modelled.
- The exception branches: a failing API call, picker or login is not modelled. The mock data cannot throw.
- `Alert` dialogs and console output: an alert is modelled as the message the handler would show.
- Date parsing and formatting, including `new Date`, `toLocaleDateString`, `toISOString`, `formatDateForCSV` and the date in the export file name. The date parser, the formatter, "now" and today's date are parameters.
- `Date.now()` in the demo user id: the stamp is a parameter.
- `formatCurrencyForCSV` (floating-point `toFixed`) and `downloadCSV` (console output).
- `useClaimSubmission`: nondeterministic mock I/O (`Math.random`, `Date.now`, `setTimeout`).
- The loading of TPAs and services in the submission form: these are fixed mock lists behind a timer.
- The yup `claimSearchSchema`: a library object. Its at-least-one rule is the identifier check the search screen runs.
- Native pickers: only the picked asset list or the chosen date is modelled.
- Unicode: `toLowerCase`, `trim` and `\s` are restricted to ASCII letters and the six ASCII whitespace characters. String lengths do count UTF-16 code units, as `.length` does.
- JavaScript object quirks: a lookup such as `validCredentials['constructor']` finds an inherited property in JavaScript. Here the tables are plain maps, so such a key is simply absent.
- DemoApp's `'Unknown user role'` branch: it is reachable only through an inherited key such as `'constructor'` (see the object-quirks line), and it is not modelled.
- CsvExport: numbers are integers, rendered in plain decimal. Non-integral `number` cells, whose rendering involves floating point, are not modelled. JavaScript writes magnitudes of 10^21 and above in exponent form ("1e+21") and loses precision above 2^53; the model does not.
- CsvExport.ExportLines: it states the line structure only when no header or cell contains a line break. A break inside a field is emitted unquoted and would split the record, which is a departure from section 2 of RFC 4180.
- ClaimStatusSearch.ApplyFiltersMeaning: the hospital, stage and text filters apply only when their option is non-empty, as in the source. The date filter compares pre-parsed integers. An unparseable date makes every comparison false, as an invalid JavaScript date does.
- FormValidation.ClearErrors: the hook writes `undefined` under a cleared key, while the model removes the key. Every reader of these errors tests truthiness, so the two read the same.
- ClaimSearchInterface.SearchDisabled: error values are never `undefined` in the model. A cleared error is removed from the map, so "some error is set" is "the map is non-empty".
