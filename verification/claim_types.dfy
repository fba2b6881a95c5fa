/** The claim records, filter options and form data the claim screens exchange. */
module ClaimTypes {
  import opened Options
  import Text

  datatype Hospital = Hospital(id: string, name: string, code: Option<string>)

  /** A claim as listed; `claimStage` is free text, so stage-indexed lookups need a default case. */
  datatype ClaimItem = ClaimItem(
    id: string,
    claimNo: string,
    policyNo: string,
    patientName: string,
    hospitalName: string,
    claimStage: string,
    statusDate: string,
    referenceNo: string,
    submittedDate: string)

  /** Every filter field is optional; `None` is an unset field. */
  datatype ClaimFilterOptions = ClaimFilterOptions(
    hospitalId: Option<string>,
    claimStage: Option<string>,
    dateFrom: Option<string>,
    dateTo: Option<string>,
    searchText: Option<string>)

  const NoFilters := ClaimFilterOptions(None, None, None, None, None)

  /** The keys of `ClaimFilterOptions`. */
  datatype FilterField = HospitalIdOption | ClaimStageOption | DateFromOption | DateToOption | SearchTextOption

  const AllFilterFields: seq<FilterField> :=
    [HospitalIdOption, ClaimStageOption, DateFromOption, DateToOption, SearchTextOption]

  function GetOption(o: ClaimFilterOptions, f: FilterField): Option<string> {
    match f
    case HospitalIdOption => o.hospitalId
    case ClaimStageOption => o.claimStage
    case DateFromOption => o.dateFrom
    case DateToOption => o.dateTo
    case SearchTextOption => o.searchText
  }

  /** A field is in effect when it is present and not the empty string (JavaScript truthiness). */
  predicate Active(v: Option<string>) { v.Some? && v.value != "" }

  datatype ClaimStage = Admitted | Discharged | FileSubmitted | Settled | Pending | Rejected

  /** The enum's string values. */
  function StageName(st: ClaimStage): string {
    match st
    case Admitted => "Admitted"
    case Discharged => "Discharged"
    case FileSubmitted => "File Submitted"
    case Settled => "Settled"
    case Pending => "Pending"
    case Rejected => "Rejected"
  }

  /** The enum's values in declaration order (`Object.values(ClaimStage)`). */
  const AllStages: seq<ClaimStage> := [Admitted, Discharged, FileSubmitted, Settled, Pending, Rejected]

  /** The stage whose value is exactly `s`, if any. */
  function StageFromName(s: string): (r: Option<ClaimStage>)
    ensures r.Some? ==> StageName(r.value) == s
  {
    if s == "Admitted" then Some(Admitted)
    else if s == "Discharged" then Some(Discharged)
    else if s == "File Submitted" then Some(FileSubmitted)
    else if s == "Settled" then Some(Settled)
    else if s == "Pending" then Some(Pending)
    else if s == "Rejected" then Some(Rejected)
    else None
  }

  /** The position of a stage in `AllStages`. */
  function StageIndex(st: ClaimStage): (i: nat)
    ensures i < |AllStages| && AllStages[i] == st
  {
    match st
    case Admitted => 0
    case Discharged => 1
    case FileSubmitted => 2
    case Settled => 3
    case Pending => 4
    case Rejected => 5
  }

  /** Names and stages are in one-to-one correspondence: six pairwise-distinct values. */
  lemma StageNameRoundTrip(st: ClaimStage, s: string)
    ensures StageFromName(StageName(st)) == Some(st)
    ensures StageName(st) == s <==> StageFromName(s) == Some(st)
  {
  }

  lemma AllStagesEnumerates()
    ensures |AllStages| == 6
    ensures forall st: ClaimStage :: st in AllStages
    ensures forall i, j | 0 <= i < j < |AllStages| :: StageName(AllStages[i]) != StageName(AllStages[j])
  {
    forall st: ClaimStage ensures st in AllStages {
      match st
      case Admitted => assert AllStages[0] == st;
      case Discharged => assert AllStages[1] == st;
      case FileSubmitted => assert AllStages[2] == st;
      case Settled => assert AllStages[3] == st;
      case Pending => assert AllStages[4] == st;
      case Rejected => assert AllStages[5] == st;
    }
  }

  /** The lower-case form of each stage value, as the colour and description tables spell it. */
  function LowerStageName(st: ClaimStage): string {
    match st
    case Admitted => "admitted"
    case Discharged => "discharged"
    case FileSubmitted => "file submitted"
    case Settled => "settled"
    case Pending => "pending"
    case Rejected => "rejected"
  }

  lemma LowerStageNameIsLowered(st: ClaimStage)
    ensures Text.ToLower(StageName(st)) == LowerStageName(st)
  {
    var s := StageName(st);
    var l := Text.ToLower(s);
    assert |l| == |LowerStageName(st)|;
    forall i | 0 <= i < |l| ensures l[i] == LowerStageName(st)[i] {
      assert l[i] == Text.ToLowerChar(s[i]);
    }
  }

  /** The stage whose value equals `status` ignoring ASCII case, if any. */
  function StageIgnoringCase(status: string): (r: Option<ClaimStage>)
    ensures r.None? ==> forall st: ClaimStage :: Text.ToLower(status) != LowerStageName(st)
    ensures r.Some? ==> Text.ToLower(status) == LowerStageName(r.value)
  {
    var l := Text.ToLower(status);
    if l == "admitted" then Some(Admitted)
    else if l == "discharged" then Some(Discharged)
    else if l == "file submitted" then Some(FileSubmitted)
    else if l == "settled" then Some(Settled)
    else if l == "pending" then Some(Pending)
    else if l == "rejected" then Some(Rejected)
    else None
  }

  lemma StageIgnoringCaseOfName(st: ClaimStage)
    ensures StageIgnoringCase(StageName(st)) == Some(st)
  {
    LowerStageNameIsLowered(st);
  }

  /** `hospitals.find(h => h.id === id)`: the first hospital with that id. */
  function FindHospital(hospitals: seq<Hospital>, id: string): (r: Option<Hospital>)
    ensures r.None? <==> forall i | 0 <= i < |hospitals| :: hospitals[i].id != id
    ensures r.Some? ==> r.value.id == id && r.value in hospitals
    ensures r.Some? ==> exists k | 0 <= k < |hospitals| :: hospitals[k] == r.value
                          && forall j | 0 <= j < k :: hospitals[j].id != id
    decreases |hospitals|
  {
    if |hospitals| == 0 then None
    else if hospitals[0].id == id then Some(hospitals[0])
    else
      var r := FindHospital(hospitals[1..], id);
      assert r.Some? ==> exists k | 0 <= k < |hospitals| :: hospitals[k] == r.value
                           && forall j | 0 <= j < k :: hospitals[j].id != id by {
        if r.Some? {
          var k :| 0 <= k < |hospitals| - 1 && hospitals[1..][k] == r.value
                   && forall j | 0 <= j < k :: hospitals[1..][j].id != id;
          assert hospitals[k + 1] == r.value;
          assert forall j | 0 <= j < k + 1 :: hospitals[j].id != id by {
            forall j | 0 <= j < k + 1 ensures hospitals[j].id != id {
              if j > 0 { assert hospitals[j] == hospitals[1..][j - 1]; }
            }
          }
        }
      }
      r
  }

  /** `claim.hospitalName === hospitals.find(h => h.id === id)?.name`: an unknown id matches no claim. */
  predicate HospitalMatches(hospitals: seq<Hospital>, id: string, c: ClaimItem) {
    var h := FindHospital(hospitals, id);
    h.Some? && h.value.name == c.hospitalName
  }

  /** `text.toLowerCase().includes(query.toLowerCase())` */
  predicate ContainsIgnoringCase(text: string, query: string) {
    Text.Contains(Text.ToLower(text), Text.ToLower(query))
  }

  /** An uploaded file; `size` is in bytes. */
  datatype Document = Document(uri: string, name: string, mimeType: string, size: int)

  /** The claim-submission form. `admissionDate` is a pre-parsed timestamp, absent when unset. */
  datatype ClaimFormData = ClaimFormData(
    patientName: string,
    admissionDate: Option<int>,
    tpaId: string,
    serviceIds: seq<string>,
    documents: seq<Document>)

  /** The keys of `ValidationErrors`: one per field of `ClaimFormData`. */
  datatype FormField = PatientNameField | AdmissionDateField | TpaIdField | ServiceIdsField | DocumentsField

  function FormFieldName(f: FormField): string {
    match f
    case PatientNameField => "patientName"
    case AdmissionDateField => "admissionDate"
    case TpaIdField => "tpaId"
    case ServiceIdsField => "serviceIds"
    case DocumentsField => "documents"
  }

  /** Per-field error messages; a key is present exactly when that field has an error. */
  type ValidationErrors = map<FormField, string>

  lemma FormFieldNamesDistinct(f: FormField, g: FormField)
    ensures FormFieldName(f) == FormFieldName(g) <==> f == g
  {
  }
}
