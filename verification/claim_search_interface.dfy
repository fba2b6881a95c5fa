/**
 * The hospital claim search screen: five validators on the trimmed form values, the search-button gate, input
 * edits that clear their own error, and the search over the two demonstration claims on the raw values.
 */
module ClaimSearchInterface {
  import opened Options
  import opened Text
  import opened Seqs
  import opened ClaimTypes
  import Validation
  import ClaimStatusCard
  import ClaimListItem

  datatype SearchForm = SearchForm(hospitalId: string, claimNo: string, policyNo: string, patientName: string)

  const EmptyForm := SearchForm("", "", "", "")

  datatype SearchField = HospitalIdInput | ClaimNoInput | PolicyNoInput | PatientNameInput

  /** The keys of the screen's `ValidationErrors`; `General` is the missing-identifier error. */
  datatype ErrorKey = HospitalIdKey | ClaimNoKey | PolicyNoKey | PatientNameKey | GeneralKey

  function KeyOf(f: SearchField): ErrorKey {
    match f
    case HospitalIdInput => HospitalIdKey
    case ClaimNoInput => ClaimNoKey
    case PolicyNoInput => PolicyNoKey
    case PatientNameInput => PatientNameKey
  }

  /** A key is present exactly when its error is set to a message; `undefined` is absence. */
  type SearchErrors = map<ErrorKey, string>

  const HospitalRequired := "Hospital Name is required"
  const IdentifierRequired := "At least one identifier (Claim No, Policy No, or Patient Name) must be filled"
  const ClaimNoDigits := "Claim Number must contain only numbers"
  const PolicyNoAlphanumeric := "Policy Number must contain only letters and numbers"
  const PatientNameLetters := "Patient Name must contain only letters and spaces"

  function Get(form: SearchForm, f: SearchField): string {
    match f
    case HospitalIdInput => form.hospitalId
    case ClaimNoInput => form.claimNo
    case PolicyNoInput => form.policyNo
    case PatientNameInput => form.patientName
  }

  predicate HasIdentifier(form: SearchForm) {
    |Trim(form.claimNo)| > 0 || |Trim(form.policyNo)| > 0 || |Trim(form.patientName)| > 0
  }

  /** The five validators, each deciding its own key. */
  predicate KeyFails(form: SearchForm, k: ErrorKey) {
    match k
    case HospitalIdKey => form.hospitalId == ""
    case GeneralKey => !HasIdentifier(form)
    case ClaimNoKey => !AllChars(Trim(form.claimNo), IsDigit)
    case PolicyNoKey => !AllChars(Trim(form.policyNo), IsAlphanumeric)
    case PatientNameKey => !AllChars(Trim(form.patientName), Validation.NameChar)
  }

  function KeyMessage(k: ErrorKey): string {
    match k
    case HospitalIdKey => HospitalRequired
    case GeneralKey => IdentifierRequired
    case ClaimNoKey => ClaimNoDigits
    case PolicyNoKey => PolicyNoAlphanumeric
    case PatientNameKey => PatientNameLetters
  }

  const AllErrorKeys: set<ErrorKey> := {HospitalIdKey, GeneralKey, ClaimNoKey, PolicyNoKey, PatientNameKey}

  /** The errors a validation should leave: the message of every failing check, nothing else. */
  function FailingChecks(fails: ErrorKey -> bool): SearchErrors {
    map k | k in AllErrorKeys && fails(k) :: KeyMessage(k)
  }

  function SetOrClear(errors: SearchErrors, k: ErrorKey, fails: bool): SearchErrors {
    if fails then errors[k := KeyMessage(k)] else errors - {k}
  }

  /** The five validators in order, each setting or clearing its own key in the previous errors. */
  function RunValidators(prev: SearchErrors, fails: ErrorKey -> bool): SearchErrors {
    var e1 := SetOrClear(prev, HospitalIdKey, fails(HospitalIdKey));
    var e2 := SetOrClear(e1, GeneralKey, fails(GeneralKey));
    var e3 := SetOrClear(e2, ClaimNoKey, fails(ClaimNoKey));
    var e4 := SetOrClear(e3, PolicyNoKey, fails(PolicyNoKey));
    SetOrClear(e4, PatientNameKey, fails(PatientNameKey))
  }

  lemma SetOrClearAt(errors: SearchErrors, k: ErrorKey, fails: bool, j: ErrorKey)
    ensures var r := SetOrClear(errors, k, fails);
            && (j in r <==> (if j == k then fails else j in errors))
            && (j in r ==> r[j] == (if j == k then KeyMessage(k) else errors[j]))
  {
  }

  /** Every key is overwritten, so the validators leave exactly the failing checks, whatever came before. */
  lemma RunValidatorsForgetsPrevious(prev: SearchErrors, fails: ErrorKey -> bool)
    ensures RunValidators(prev, fails) == FailingChecks(fails)
  {
    var e1 := SetOrClear(prev, HospitalIdKey, fails(HospitalIdKey));
    var e2 := SetOrClear(e1, GeneralKey, fails(GeneralKey));
    var e3 := SetOrClear(e2, ClaimNoKey, fails(ClaimNoKey));
    var e4 := SetOrClear(e3, PolicyNoKey, fails(PolicyNoKey));
    var e5 := SetOrClear(e4, PatientNameKey, fails(PatientNameKey));
    var want := FailingChecks(fails);
    forall j: ErrorKey
      ensures (j in e5 <==> j in want) && (j in e5 ==> e5[j] == want[j])
    {
      SetOrClearAt(prev, HospitalIdKey, fails(HospitalIdKey), j);
      SetOrClearAt(e1, GeneralKey, fails(GeneralKey), j);
      SetOrClearAt(e2, ClaimNoKey, fails(ClaimNoKey), j);
      SetOrClearAt(e3, PolicyNoKey, fails(PolicyNoKey), j);
      SetOrClearAt(e4, PatientNameKey, fails(PatientNameKey), j);
    }
    assert e5.Keys == want.Keys;
  }

  function FailsOn(form: SearchForm): ErrorKey -> bool {
    k => KeyFails(form, k)
  }

  /** `validateForm`: runs the validators and passes when all five pass. */
  function ValidateForm(form: SearchForm, prev: SearchErrors): (res: (bool, SearchErrors))
    ensures res.1 == FailingChecks(FailsOn(form))
    ensures res.0 <==> forall k: ErrorKey :: !KeyFails(form, k)
    ensures res.0 <==> res.1 == map[]
  {
    RunValidatorsForgetsPrevious(prev, FailsOn(form));
    var ok := !KeyFails(form, HospitalIdKey) && !KeyFails(form, GeneralKey) && !KeyFails(form, ClaimNoKey)
              && !KeyFails(form, PolicyNoKey) && !KeyFails(form, PatientNameKey);
    var errors := RunValidators(prev, FailsOn(form));
    assert !ok ==> errors != map[] by {
      if !ok {
        var k :| k in AllErrorKeys && KeyFails(form, k);
        assert k in errors;
      }
    }
    (ok, errors)
  }

  /** The identifier validators agree with the shared validators of the trimmed values. */
  lemma IdentifierChecksAgree(form: SearchForm)
    ensures KeyFails(form, ClaimNoKey) <==> Validation.ValidateClaimNumber(Trim(form.claimNo)).Some?
    ensures KeyFails(form, PolicyNoKey) <==> Validation.ValidatePolicyNumber(Trim(form.policyNo)).Some?
    ensures KeyFails(form, PatientNameKey) <==> Validation.ValidatePatientName(Trim(form.patientName)).Some?
  {
  }

  /** Blank identifiers pass their character checks; only the general error reports them. */
  lemma BlankIdentifiersPassCharacterChecks(form: SearchForm)
    requires !HasIdentifier(form)
    ensures !KeyFails(form, ClaimNoKey) && !KeyFails(form, PolicyNoKey) && !KeyFails(form, PatientNameKey)
    ensures KeyFails(form, GeneralKey)
  {
  }

  /** `isSearchButtonDisabled`, on the raw values and any error present. */
  function SearchDisabled(form: SearchForm, errors: SearchErrors): (r: bool)
    ensures !r <==> form.hospitalId != "" && errors == map[]
                    && exists f: SearchField :: f != HospitalIdInput && Get(form, f) != ""
  {
    assert form.claimNo != "" ==> Get(form, ClaimNoInput) != "";
    assert form.policyNo != "" ==> Get(form, PolicyNoInput) != "";
    assert form.patientName != "" ==> Get(form, PatientNameInput) != "";
    form.hospitalId == "" || (form.claimNo == "" && form.policyNo == "" && form.patientName == "")
    || errors != map[]
  }

  /** A field that passes validation once trimmed can still hold only spaces, which the raw button gate
      accepts and the validator rejects. */
  lemma SpacesEnableButtonButFailValidation()
    ensures var form := SearchForm("1", " ", "", "");
            !SearchDisabled(form, map[]) && !ValidateForm(form, map[]).0
  {
    var form := SearchForm("1", " ", "", "");
    assert Get(form, ClaimNoInput) != "";
    assert AllChars(" ", IsSpace) && AllChars("", IsSpace);
    assert |Trim(form.claimNo)| == 0 && |Trim(form.policyNo)| == 0 && |Trim(form.patientName)| == 0;
    assert KeyFails(form, GeneralKey);
  }

  datatype ScreenState = ScreenState(
    form: SearchForm,
    selectedHospital: Option<Hospital>,
    searchResults: seq<ClaimItem>,
    isLoading: bool,
    hasSearched: bool,
    errors: SearchErrors)

  const InitialScreen := ScreenState(EmptyForm, None, [], false, false, map[])

  function Set(form: SearchForm, f: SearchField, value: string): SearchForm {
    match f
    case HospitalIdInput => form.(hospitalId := value)
    case ClaimNoInput => form.(claimNo := value)
    case PolicyNoInput => form.(policyNo := value)
    case PatientNameInput => form.(patientName := value)
  }

  /** `handleInputChange`: the field takes the value, and its own error and the general error are cleared. */
  function HandleInputChange(st: ScreenState, f: SearchField, value: string): (r: ScreenState)
    ensures Get(r.form, f) == value
    ensures forall g :: g != f ==> Get(r.form, g) == Get(st.form, g)
    ensures KeyOf(f) !in r.errors && GeneralKey !in r.errors
    ensures forall k | k in st.errors && k != KeyOf(f) && k != GeneralKey :: k in r.errors && r.errors[k] == st.errors[k]
    ensures forall k | k in r.errors :: k in st.errors
    ensures r.searchResults == st.searchResults && r.hasSearched == st.hasSearched
    ensures r.selectedHospital == st.selectedHospital && r.isLoading == st.isLoading
  {
    st.(form := Set(st.form, f, value), errors := st.errors - {KeyOf(f), GeneralKey})
  }

  /** `handleHospitalSelect`: remembers the hospital and stores its id, or "" when the selection is cleared. */
  function HandleHospitalSelect(st: ScreenState, h: Option<Hospital>): (r: ScreenState)
    ensures r.selectedHospital == h
    ensures r.form.hospitalId == (if h.Some? then h.value.id else "")
    ensures HospitalIdKey !in r.errors && GeneralKey !in r.errors
    ensures forall g :: g != HospitalIdInput ==> Get(r.form, g) == Get(st.form, g)
    ensures forall k | k in st.errors && k != HospitalIdKey && k != GeneralKey :: k in r.errors && r.errors[k] == st.errors[k]
    ensures forall k | k in r.errors :: k in st.errors
    ensures r.searchResults == st.searchResults && r.hasSearched == st.hasSearched
    ensures r.isLoading == st.isLoading
  {
    HandleInputChange(st.(selectedHospital := h), HospitalIdInput, if h.Some? then h.value.id else "")
  }

  /** The fixed results the demonstration search filters. */
  const MockSearchResults: seq<ClaimItem> := [
    ClaimItem("1", "CLM-2024-001", "POL-2024-001", "John Doe", "Apollo Hospital", "File Submitted",
              "2024-01-15", "REF-2024-001", "2024-01-10"),
    ClaimItem("2", "CLM-2024-002", "POL-2024-002", "Jane Smith", "Fortis Hospital", "Admitted",
              "2024-01-20", "REF-2024-002", "2024-01-18")]

  function HospitalIs(hospitals: seq<Hospital>, id: string): ClaimItem -> bool {
    c => HospitalMatches(hospitals, id, c)
  }

  function ClaimNoHas(q: string): ClaimItem -> bool { (c: ClaimItem) => ContainsIgnoringCase(c.claimNo, q) }

  function PolicyNoHas(q: string): ClaimItem -> bool { (c: ClaimItem) => ContainsIgnoringCase(c.policyNo, q) }

  function PatientNameHas(q: string): ClaimItem -> bool {
    (c: ClaimItem) => ContainsIgnoringCase(c.patientName, q)
  }

  /** The search steps of `handleSearch`, each applied only when its raw form value is non-empty. */
  function SearchClaims(claims: seq<ClaimItem>, hospitals: seq<Hospital>, form: SearchForm): seq<ClaimItem> {
    var s1 := Narrow(claims, form.hospitalId != "", HospitalIs(hospitals, form.hospitalId));
    var s2 := Narrow(s1, form.claimNo != "", ClaimNoHas(form.claimNo));
    var s3 := Narrow(s2, form.policyNo != "", PolicyNoHas(form.policyNo));
    Narrow(s3, form.patientName != "", PatientNameHas(form.patientName))
  }

  /** The search as one condition: every non-empty raw value must match. */
  predicate SearchMatches(hospitals: seq<Hospital>, form: SearchForm, c: ClaimItem) {
    && (form.hospitalId != "" ==> HospitalMatches(hospitals, form.hospitalId, c))
    && (form.claimNo != "" ==> ContainsIgnoringCase(c.claimNo, form.claimNo))
    && (form.policyNo != "" ==> ContainsIgnoringCase(c.policyNo, form.policyNo))
    && (form.patientName != "" ==> ContainsIgnoringCase(c.patientName, form.patientName))
  }

  /** The staged search equals the one-pass filter by `SearchMatches`, so its result is an ordered sub-list
      of the claims holding exactly the matching ones. */
  lemma SearchClaimsIsMatching(claims: seq<ClaimItem>, hospitals: seq<Hospital>, form: SearchForm)
    ensures SearchClaims(claims, hospitals, form) == Filter(claims, c => SearchMatches(hospitals, form, c))
    ensures IsSubsequence(SearchClaims(claims, hospitals, form), claims)
  {
    var p0 := (c: ClaimItem) => true;
    var p1 := (c: ClaimItem) => form.hospitalId != "" ==> HospitalMatches(hospitals, form.hospitalId, c);
    var p2 := (c: ClaimItem) => p1(c) && (form.claimNo != "" ==> ContainsIgnoringCase(c.claimNo, form.claimNo));
    var p3 := (c: ClaimItem) => p2(c) && (form.policyNo != "" ==> ContainsIgnoringCase(c.policyNo, form.policyNo));
    var m := (c: ClaimItem) => SearchMatches(hospitals, form, c);
    FilterAll(claims, p0);
    OptionalStep(claims, p0, form.hospitalId != "", HospitalIs(hospitals, form.hospitalId), p1);
    OptionalStep(claims, p1, form.claimNo != "", ClaimNoHas(form.claimNo), p2);
    OptionalStep(claims, p2, form.policyNo != "", PolicyNoHas(form.policyNo), p3);
    OptionalStep(claims, p3, form.patientName != "", PatientNameHas(form.patientName), m);
    FilterIsSubsequence(claims, m);
  }

  /** `handleSearch` once its simulated request settles: a failed validation only records the errors;
      otherwise the search is marked as done and the filtered demonstration claims are shown. */
  function HandleSearch(st: ScreenState, hospitals: seq<Hospital>): (r: ScreenState)
    ensures r.errors == ValidateForm(st.form, st.errors).1
    ensures !ValidateForm(st.form, st.errors).0 ==> r == st.(errors := r.errors)
    ensures ValidateForm(st.form, st.errors).0 ==>
              r.hasSearched && !r.isLoading && r.errors == map[]
              && r.searchResults == SearchClaims(MockSearchResults, hospitals, st.form)
    ensures r.form == st.form && r.selectedHospital == st.selectedHospital
  {
    var (ok, errors) := ValidateForm(st.form, st.errors);
    if !ok then st.(errors := errors)
    else st.(errors := errors, isLoading := false, hasSearched := true,
             searchResults := SearchClaims(MockSearchResults, hospitals, st.form))
  }

  /** A search that runs shows only claims satisfying every non-empty criterion. */
  lemma SearchResultsMatch(st: ScreenState, hospitals: seq<Hospital>)
    requires ValidateForm(st.form, st.errors).0
    ensures var r := HandleSearch(st, hospitals);
            forall i | 0 <= i < |r.searchResults| ::
              r.searchResults[i] in MockSearchResults && SearchMatches(hospitals, st.form, r.searchResults[i])
  {
    SearchClaimsIsMatching(MockSearchResults, hospitals, st.form);
  }

  /** `handleClearSearch` returns to the initial screen. */
  function HandleClearSearch(st: ScreenState): (r: ScreenState)
    ensures r.form == EmptyForm && r.selectedHospital.None? && r.searchResults == []
    ensures !r.hasSearched && r.errors == map[]
    ensures r.isLoading == st.isLoading
  {
    st.(form := EmptyForm, selectedHospital := None, searchResults := [], hasSearched := false, errors := map[])
  }

  /** After clearing, the search button is disabled: no hospital is chosen. */
  lemma ClearedSearchIsDisabled(st: ScreenState)
    ensures SearchDisabled(HandleClearSearch(st).form, HandleClearSearch(st).errors)
  {
  }

  /** The colours of a result's stage badge: the same table as the status card and the list row. */
  function ResultBadge(claim: ClaimItem): (r: ClaimStatusCard.StatusColors)
    ensures r == ClaimListItem.BadgeColors(claim)
    ensures r == ClaimStatusCard.DefaultColors <==> StageIgnoringCase(claim.claimStage).None?
  {
    ClaimStatusCard.StatusColor(claim.claimStage)
  }
}
