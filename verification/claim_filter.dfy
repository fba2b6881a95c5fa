/**
 * The filter sheet of the claim-status screen: a local copy of the options edited chip by chip, forwarded on
 * "Apply" and reset on "Clear". An emptied input unsets its field.
 */
module ClaimFilter {
  import opened Options
  import opened Seqs
  import opened ClaimTypes
  import ClaimStatusSearch

  function SetOption(o: ClaimFilterOptions, f: FilterField, v: Option<string>): ClaimFilterOptions {
    match f
    case HospitalIdOption => o.(hospitalId := v)
    case ClaimStageOption => o.(claimStage := v)
    case DateFromOption => o.(dateFrom := v)
    case DateToOption => o.(dateTo := v)
    case SearchTextOption => o.(searchText := v)
  }

  /** What pressing a button does: the new local options, the options handed to the screen (if any) and whether
      the sheet closes. */
  datatype Outcome = Outcome(local: ClaimFilterOptions, forwarded: Option<ClaimFilterOptions>, closes: bool)

  /** `handleInputChange`: `value || undefined`, so the empty string unsets the field; the others are kept. */
  function HandleInputChange(local: ClaimFilterOptions, f: FilterField, value: string): (r: ClaimFilterOptions)
    ensures GetOption(r, f) == (if value == "" then None else Some(value))
    ensures forall g :: g != f ==> GetOption(r, g) == GetOption(local, g)
    ensures Active(GetOption(r, f)) <==> value != ""
  {
    SetOption(local, f, if value == "" then None else Some(value))
  }

  /** The sheet never stores an empty string, so "set" and "in effect" coincide for the fields it edits. */
  lemma InputChangeNeverStoresEmpty(local: ClaimFilterOptions, f: FilterField, value: string)
    ensures var r := HandleInputChange(local, f, value);
            GetOption(r, f).Some? <==> Active(GetOption(r, f))
  {
  }

  /** Editing a field twice keeps the last value; editing two different fields commutes. */
  lemma InputChangesCompose(local: ClaimFilterOptions, f: FilterField, g: FilterField, a: string, b: string)
    ensures HandleInputChange(HandleInputChange(local, f, a), f, b) == HandleInputChange(local, f, b)
    ensures f != g ==>
              HandleInputChange(HandleInputChange(local, f, a), g, b)
              == HandleInputChange(HandleInputChange(local, g, b), f, a)
  {
  }

  /** `handleApplyFilters`: forwards the local options unchanged and closes. */
  function HandleApply(local: ClaimFilterOptions): (r: Outcome)
    ensures r.local == local && r.forwarded == Some(local) && r.closes
  {
    Outcome(local, Some(local), true)
  }

  /** `handleClearFilters`: the empty options, locally and on the screen. */
  function HandleClear(local: ClaimFilterOptions): (r: Outcome)
    ensures r.forwarded == Some(r.local) && r.closes
    ensures forall f :: GetOption(r.local, f).None?
  {
    Outcome(NoFilters, Some(NoFilters), true)
  }

  /** After "Clear" the screen shows every claim and the badge shows no filters. */
  lemma ClearShowsEverything(local: ClaimFilterOptions, claims: seq<ClaimItem>, hospitals: seq<Hospital>,
                             parse: ClaimStatusSearch.DateParser)
    ensures var o := HandleClear(local).forwarded.value;
            ClaimStatusSearch.ApplyFilters(claims, hospitals, o, parse) == claims
            && ClaimStatusSearch.ActiveFiltersCount(o) == 0
  {
  }

  /** The "All Hospitals" chip is highlighted when no hospital is in effect; a hospital chip when its id is. */
  predicate AllHospitalsChipActive(local: ClaimFilterOptions) { !Active(local.hospitalId) }

  predicate HospitalChipActive(local: ClaimFilterOptions, h: Hospital) { local.hospitalId == Some(h.id) }

  /** Pressing a hospital chip highlights it alone (among hospitals with distinct, non-empty ids); pressing
      "All Hospitals" highlights only that chip. */
  lemma HospitalChipsExclusive(local: ClaimFilterOptions, hospitals: seq<Hospital>, k: int)
    requires 0 <= k < |hospitals|
    requires forall i | 0 <= i < |hospitals| :: hospitals[i].id != ""
    requires forall i, j | 0 <= i < j < |hospitals| :: hospitals[i].id != hospitals[j].id
    ensures var r := HandleInputChange(local, HospitalIdOption, hospitals[k].id);
            && HospitalChipActive(r, hospitals[k]) && !AllHospitalsChipActive(r)
            && forall i | 0 <= i < |hospitals| && i != k :: !HospitalChipActive(r, hospitals[i])
    ensures var r := HandleInputChange(local, HospitalIdOption, "");
            AllHospitalsChipActive(r) && forall i | 0 <= i < |hospitals| :: !HospitalChipActive(r, hospitals[i])
  {
  }

  /** The status chips: the enum's values in declaration order. */
  function StageChoices(): (r: seq<string>)
    ensures |r| == |AllStages|
    ensures forall i | 0 <= i < |r| :: StageFromName(r[i]) == Some(AllStages[i])
  {
    AllStagesEnumerates();
    seq(|AllStages|, i requires 0 <= i < |AllStages| => StageName(AllStages[i]))
  }

  /** Every stage has exactly one chip: some chip carries its value, and no two chips carry the same. */
  lemma StageChoicesCover(st: ClaimStage)
    ensures exists i | 0 <= i < |StageChoices()| :: StageChoices()[i] == StageName(st)
    ensures forall i, j | 0 <= i < j < |StageChoices()| :: StageChoices()[i] != StageChoices()[j]
  {
    var k := StageIndex(st);
    assert StageChoices()[k] == StageName(st);
    AllStagesEnumerates();
    forall i, j | 0 <= i < j < |StageChoices()| ensures StageChoices()[i] != StageChoices()[j] {
      assert StageChoices()[i] == StageName(AllStages[i]) && StageChoices()[j] == StageName(AllStages[j]);
    }
  }
}
