/**
 * The claim-status list screen: the filter conjunction of `applyFilters`, the active-filter badge count and the
 * `totalClaims` bookkeeping. Filtering always starts again from the fixed claim list. Date strings are parsed by
 * the `parse` parameter; `None` is an invalid date, and every comparison with it is false.
 */
module ClaimStatusSearch {
  import opened Options
  import opened Text
  import opened Seqs
  import opened ClaimTypes

  type DateParser = string -> Option<int>

  const MockHospitals: seq<Hospital> := [
    Hospital("1", "Apollo Hospital", Some("APL001")),
    Hospital("2", "Fortis Hospital", Some("FRT002")),
    Hospital("3", "Manipal Hospital", Some("MNL003")),
    Hospital("4", "Narayana Health", Some("NRY004")),
    Hospital("5", "Max Healthcare", Some("MAX005")),
    Hospital("6", "Medanta Hospital", Some("MDT006")),
    Hospital("7", "Artemis Hospital", Some("ART007")),
    Hospital("8", "BLK Hospital", Some("BLK008"))]

  const MockClaims: seq<ClaimItem> := [
    ClaimItem("1", "CLM-2024-001", "POL-2024-001", "John Doe", "Apollo Hospital", "File Submitted",
              "2024-01-15", "REF-2024-001", "2024-01-10"),
    ClaimItem("2", "CLM-2024-002", "POL-2024-002", "Jane Smith", "Fortis Hospital", "Admitted",
              "2024-01-20", "REF-2024-002", "2024-01-18"),
    ClaimItem("3", "CLM-2024-003", "POL-2024-003", "Mike Johnson", "Manipal Hospital", "Settled",
              "2024-01-25", "REF-2024-003", "2024-01-22"),
    ClaimItem("4", "CLM-2024-004", "POL-2024-004", "Sarah Wilson", "Narayana Health", "Pending",
              "2024-01-30", "REF-2024-004", "2024-01-28"),
    ClaimItem("5", "CLM-2024-005", "POL-2024-005", "David Brown", "Max Healthcare", "Discharged",
              "2024-02-05", "REF-2024-005", "2024-02-01")]

  predicate HasActiveFilters(o: ClaimFilterOptions) {
    Active(o.hospitalId) || Active(o.claimStage) || Active(o.searchText) || Active(o.dateFrom) || Active(o.dateTo)
  }

  /** Case-insensitive substring search over claim number, policy number and patient name. */
  predicate TextMatches(text: string, c: ClaimItem) {
    ContainsIgnoringCase(c.claimNo, text) || ContainsIgnoringCase(c.policyNo, text)
    || ContainsIgnoringCase(c.patientName, text)
  }

  predicate AtLeast(d: Option<int>, bound: Option<int>) { d.Some? && bound.Some? && d.value >= bound.value }

  predicate AtMost(d: Option<int>, bound: Option<int>) { d.Some? && bound.Some? && d.value <= bound.value }

  /** The date step, branch for branch. */
  predicate DateStep(o: ClaimFilterOptions, parse: DateParser, c: ClaimItem) {
    var d := parse(c.statusDate);
    if Active(o.dateFrom) && Active(o.dateTo) then AtLeast(d, parse(o.dateFrom.value)) && AtMost(d, parse(o.dateTo.value))
    else if Active(o.dateFrom) then AtLeast(d, parse(o.dateFrom.value))
    else if Active(o.dateTo) then AtMost(d, parse(o.dateTo.value))
    else true
  }

  function HospitalIs(hospitals: seq<Hospital>, id: string): ClaimItem -> bool {
    c => HospitalMatches(hospitals, id, c)
  }

  function StageIs(stage: string): ClaimItem -> bool {
    (c: ClaimItem) => c.claimStage == stage
  }

  function TextIn(text: string): ClaimItem -> bool {
    c => TextMatches(text, c)
  }

  function DatesWithin(o: ClaimFilterOptions, parse: DateParser): ClaimItem -> bool {
    c => DateStep(o, parse, c)
  }

  /** `applyFilters`: all claims when no field is in effect, otherwise the hospital, stage, text and date steps
      in that order, each narrowing the previous result. */
  function ApplyFilters(claims: seq<ClaimItem>, hospitals: seq<Hospital>, o: ClaimFilterOptions, parse: DateParser)
    : seq<ClaimItem>
  {
    if !HasActiveFilters(o) then claims
    else
      var s1 := Narrow(claims, Active(o.hospitalId), HospitalIs(hospitals, o.hospitalId.GetOr("")));
      var s2 := Narrow(s1, Active(o.claimStage), StageIs(o.claimStage.GetOr("")));
      var s3 := Narrow(s2, Active(o.searchText), TextIn(o.searchText.GetOr("")));
      Narrow(s3, Active(o.dateFrom) || Active(o.dateTo), DatesWithin(o, parse))
  }

  /** The filter stated as one conjunction: each field in effect constrains the claim, bounds inclusive, and
      each date bound restricts only its own side. */
  predicate ClaimMatches(hospitals: seq<Hospital>, o: ClaimFilterOptions, parse: DateParser, c: ClaimItem) {
    && (Active(o.hospitalId) ==> HospitalMatches(hospitals, o.hospitalId.value, c))
    && (Active(o.claimStage) ==> c.claimStage == o.claimStage.value)
    && (Active(o.searchText) ==> TextMatches(o.searchText.value, c))
    && (Active(o.dateFrom) ==> AtLeast(parse(c.statusDate), parse(o.dateFrom.value)))
    && (Active(o.dateTo) ==> AtMost(parse(c.statusDate), parse(o.dateTo.value)))
  }

  function Matches(hospitals: seq<Hospital>, o: ClaimFilterOptions, parse: DateParser): ClaimItem -> bool {
    c => ClaimMatches(hospitals, o, parse, c)
  }

  /** The reference result: one pass keeping the claims that satisfy the conjunction. */
  function MatchingClaims(claims: seq<ClaimItem>, hospitals: seq<Hospital>, o: ClaimFilterOptions, parse: DateParser)
    : seq<ClaimItem>
  {
    Filter(claims, Matches(hospitals, o, parse))
  }

  /** The date step agrees with the two independent inclusive bounds. */
  lemma DateStepIsBounds(o: ClaimFilterOptions, parse: DateParser, c: ClaimItem)
    ensures DateStep(o, parse, c) <==>
              && (Active(o.dateFrom) ==> AtLeast(parse(c.statusDate), parse(o.dateFrom.value)))
              && (Active(o.dateTo) ==> AtMost(parse(c.statusDate), parse(o.dateTo.value)))
  {
  }

  /** The conjunct each step adds, as a predicate that holds when the step is switched off. */
  predicate HospitalConjunct(hospitals: seq<Hospital>, o: ClaimFilterOptions, c: ClaimItem) {
    Active(o.hospitalId) ==> HospitalMatches(hospitals, o.hospitalId.value, c)
  }

  predicate StageConjunct(o: ClaimFilterOptions, c: ClaimItem) {
    Active(o.claimStage) ==> c.claimStage == o.claimStage.value
  }

  predicate TextConjunct(o: ClaimFilterOptions, c: ClaimItem) {
    Active(o.searchText) ==> TextMatches(o.searchText.value, c)
  }

  predicate DatesConjunct(o: ClaimFilterOptions, parse: DateParser, c: ClaimItem) {
    (Active(o.dateFrom) || Active(o.dateTo)) ==> DateStep(o, parse, c)
  }

  /** The staged filter equals the one-pass conjunction: each optional step adds one conjunct. */
  lemma ApplyFiltersIsMatching(claims: seq<ClaimItem>, hospitals: seq<Hospital>,
                               o: ClaimFilterOptions, parse: DateParser)
    ensures ApplyFilters(claims, hospitals, o, parse) == MatchingClaims(claims, hospitals, o, parse)
  {
    var m := Matches(hospitals, o, parse);
    if !HasActiveFilters(o) {
      FilterAll(claims, m);
    } else {
      var p0 := (c: ClaimItem) => true;
      var p1 := (c: ClaimItem) => HospitalConjunct(hospitals, o, c);
      var p2 := (c: ClaimItem) => HospitalConjunct(hospitals, o, c) && StageConjunct(o, c);
      var p3 := (c: ClaimItem) => HospitalConjunct(hospitals, o, c) && StageConjunct(o, c) && TextConjunct(o, c);
      FilterAll(claims, p0);
      OptionalStep(claims, p0, Active(o.hospitalId), HospitalIs(hospitals, o.hospitalId.GetOr("")), p1);
      OptionalStep(claims, p1, Active(o.claimStage), StageIs(o.claimStage.GetOr("")), p2);
      OptionalStep(claims, p2, Active(o.searchText), TextIn(o.searchText.GetOr("")), p3);
      forall i | 0 <= i < |claims|
        ensures m(claims[i]) == (p3(claims[i]) && DatesConjunct(o, parse, claims[i]))
      {
        DateStepIsBounds(o, parse, claims[i]);
      }
      OptionalStep(claims, p3, Active(o.dateFrom) || Active(o.dateTo), DatesWithin(o, parse), m);
    }
  }

  /** What `applyFilters` keeps: an order-preserving subsequence of the claims, holding exactly the claims that
      satisfy the conjunction, and the whole list when no field is in effect. */
  lemma ApplyFiltersMeaning(claims: seq<ClaimItem>, hospitals: seq<Hospital>, o: ClaimFilterOptions, parse: DateParser)
    ensures var r := ApplyFilters(claims, hospitals, o, parse);
      && IsSubsequence(r, claims)
      && (forall i | 0 <= i < |r| :: r[i] in claims && ClaimMatches(hospitals, o, parse, r[i]))
      && (forall i | 0 <= i < |claims| :: ClaimMatches(hospitals, o, parse, claims[i]) ==> claims[i] in r)
      && (!HasActiveFilters(o) ==> r == claims)
  {
    ApplyFiltersIsMatching(claims, hospitals, o, parse);
    FilterIsSubsequence(claims, Matches(hospitals, o, parse));
  }

  /** Filtering an already filtered list with the same options changes nothing. */
  lemma ApplyFiltersIdempotent(claims: seq<ClaimItem>, hospitals: seq<Hospital>, o: ClaimFilterOptions, parse: DateParser)
    ensures var r := ApplyFilters(claims, hospitals, o, parse);
            ApplyFilters(r, hospitals, o, parse) == r
  {
    var r := ApplyFilters(claims, hospitals, o, parse);
    ApplyFiltersIsMatching(claims, hospitals, o, parse);
    ApplyFiltersIsMatching(r, hospitals, o, parse);
    FilterIdempotent(claims, Matches(hospitals, o, parse));
  }

  /** An id no hospital carries empties the list. */
  lemma UnknownHospitalMatchesNothing(claims: seq<ClaimItem>, hospitals: seq<Hospital>, o: ClaimFilterOptions, parse: DateParser)
    requires Active(o.hospitalId)
    requires forall i | 0 <= i < |hospitals| :: hospitals[i].id != o.hospitalId.value
    ensures ApplyFilters(claims, hospitals, o, parse) == []
  {
    var m := Matches(hospitals, o, parse);
    var id := o.hospitalId.value;
    assert FindHospital(hospitals, id).None?;
    forall i | 0 <= i < |claims| ensures !m(claims[i]) {
      assert !HospitalMatches(hospitals, id, claims[i]);
    }
    ApplyFiltersIsMatching(claims, hospitals, o, parse);
    FilterNone(claims, m);
  }

  /** `getActiveFiltersCount`: how many option fields are in effect. */
  function ActiveFiltersCount(o: ClaimFilterOptions): (n: nat)
    ensures n <= 5
    ensures n == 0 <==> !HasActiveFilters(o)
    ensures n == |Filter(AllFilterFields, f => Active(GetOption(o, f)))|
  {
    var fields := AllFilterFields;
    assert fields[1..][1..][1..][1..][1..] == [];
    (if Active(o.hospitalId) then 1 else 0)
    + (if Active(o.claimStage) then 1 else 0)
    + (if Active(o.searchText) then 1 else 0)
    + (if Active(o.dateFrom) then 1 else 0)
    + (if Active(o.dateTo) then 1 else 0)
  }

  /** The screen state (`ClaimSearchState`). */
  datatype SearchState = SearchState(
    hospitals: seq<Hospital>,
    claimsList: seq<ClaimItem>,
    isLoading: bool,
    error: Option<string>,
    isFiltering: bool,
    filterOptions: ClaimFilterOptions,
    totalClaims: int,
    currentPage: int)

  const InitialState := SearchState([], [], false, None, false, NoFilters, 0, 1)

  /** `totalClaims` is the length of the displayed list. */
  predicate TotalConsistent(st: SearchState) { st.totalClaims == |st.claimsList| }

  /** `loadHospitals` once its simulated request completes. */
  function LoadHospitals(st: SearchState): (r: SearchState)
    ensures r.hospitals == MockHospitals && !r.isLoading && r.error.None?
    ensures r.claimsList == st.claimsList && r.totalClaims == st.totalClaims && r.filterOptions == st.filterOptions
    ensures r.isFiltering == st.isFiltering && r.currentPage == st.currentPage
  {
    st.(hospitals := MockHospitals, isLoading := false, error := None)
  }

  /** `loadClaims` once its simulated request completes. */
  function LoadClaims(st: SearchState): (r: SearchState)
    ensures r.claimsList == MockClaims && TotalConsistent(r) && !r.isLoading && r.error.None?
    ensures r.hospitals == st.hospitals && r.filterOptions == st.filterOptions
    ensures r.isFiltering == st.isFiltering && r.currentPage == st.currentPage
  {
    st.(claimsList := MockClaims, totalClaims := |MockClaims|, isLoading := false, error := None)
  }

  /** `handleFilterChange`: stores the new options; the list is recomputed by `RunFilters`. */
  function HandleFilterChange(st: SearchState, o: ClaimFilterOptions): (r: SearchState)
    ensures r.filterOptions == o
    ensures r.claimsList == st.claimsList && r.totalClaims == st.totalClaims && r.hospitals == st.hospitals
    ensures r.isLoading == st.isLoading && r.error == st.error && r.isFiltering == st.isFiltering
    ensures r.currentPage == st.currentPage
    ensures TotalConsistent(st) ==> TotalConsistent(r)
  {
    st.(filterOptions := o)
  }

  /** `applyFilters` as a state transition: the list is recomputed from the fixed claims and counted. */
  function RunFilters(st: SearchState, parse: DateParser): (r: SearchState)
    ensures TotalConsistent(r)
    ensures r.claimsList == MatchingClaims(MockClaims, MockHospitals, st.filterOptions, parse)
    ensures r.filterOptions == st.filterOptions && !r.isFiltering
    ensures r.hospitals == st.hospitals && r.isLoading == st.isLoading && r.error == st.error
    ensures r.currentPage == st.currentPage
  {
    ApplyFiltersIsMatching(MockClaims, MockHospitals, st.filterOptions, parse);
    var filtered := ApplyFilters(MockClaims, MockHospitals, st.filterOptions, parse);
    st.(claimsList := filtered, totalClaims := |filtered|, isFiltering := false)
  }

  /** Filtering again with unchanged options yields the same state. */
  lemma RunFiltersIdempotent(st: SearchState, parse: DateParser)
    ensures RunFilters(RunFilters(st, parse), parse) == RunFilters(st, parse)
  {
  }

  /** Every transition keeps `totalClaims` equal to the list length, starting from the initial state. */
  lemma TotalClaimsInvariant(st: SearchState, o: ClaimFilterOptions, parse: DateParser)
    requires TotalConsistent(st)
    ensures TotalConsistent(InitialState)
    ensures TotalConsistent(LoadHospitals(st)) && TotalConsistent(LoadClaims(st))
    ensures TotalConsistent(HandleFilterChange(st, o)) && TotalConsistent(RunFilters(st, parse))
  {
  }
}
