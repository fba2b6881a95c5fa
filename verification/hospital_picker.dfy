/**
 * The hospital drop-down: a case-insensitive name search over the hospital list, an open/closed flag, and
 * the empty-list message.
 */
module HospitalPicker {
  import opened Options
  import opened Text
  import opened Seqs
  import opened ClaimTypes

  datatype PickerState = PickerState(isOpen: bool, query: string)

  const InitialPicker := PickerState(false, "")

  function NameHas(query: string): Hospital -> bool {
    (h: Hospital) => ContainsIgnoringCase(h.name, query)
  }

  /** `filteredHospitals`: the hospitals whose name contains the query, ignoring case, in list order. */
  function FilteredHospitals(hospitals: seq<Hospital>, query: string): (r: seq<Hospital>)
    ensures IsSubsequence(r, hospitals)
    ensures forall i | 0 <= i < |r| :: ContainsIgnoringCase(r[i].name, query)
    ensures forall i | 0 <= i < |hospitals| :: ContainsIgnoringCase(hospitals[i].name, query) ==> hospitals[i] in r
  {
    FilterIsSubsequence(hospitals, NameHas(query));
    Filter(hospitals, NameHas(query))
  }

  /** The empty query lists every hospital. */
  lemma EmptyQueryListsAll(hospitals: seq<Hospital>)
    ensures FilteredHospitals(hospitals, "") == hospitals
  {
    forall i | 0 <= i < |hospitals|
      ensures NameHas("")(hospitals[i])
    {
      ContainsEmpty(ToLower(hospitals[i].name));
    }
    FilterAll(hospitals, NameHas(""));
  }

  /** Typing more only narrows the list: a hospital listed for `query + more` is listed for `query`. */
  lemma LongerQueryNarrows(hospitals: seq<Hospital>, query: string, more: string)
    ensures forall i | 0 <= i < |FilteredHospitals(hospitals, query + more)| ::
              FilteredHospitals(hospitals, query + more)[i] in FilteredHospitals(hospitals, query)
  {
    var long := FilteredHospitals(hospitals, query + more);
    forall i | 0 <= i < |long|
      ensures long[i] in FilteredHospitals(hospitals, query)
    {
      ToLowerConcat(query, more);
      ContainsPrefix(ToLower(long[i].name), ToLower(query), ToLower(more));
      var k :| 0 <= k < |hospitals| && hospitals[k] == long[i];
    }
  }

  /** `handleHospitalSelect`: the chosen hospital (or none, for "All Hospitals") goes to the parent; the
      drop-down closes and its query is cleared. */
  function HandleSelect(st: PickerState, h: Option<Hospital>): (r: (PickerState, Option<Hospital>))
    ensures r.0 == InitialPicker && r.1 == h
  {
    (PickerState(false, ""), h)
  }

  /** `toggleDropdown`: flips the flag; opening clears the query, closing keeps it. */
  function ToggleDropdown(st: PickerState): (r: PickerState)
    ensures r.isOpen == !st.isOpen
    ensures r.isOpen ==> r.query == ""
    ensures !r.isOpen ==> r.query == st.query
  {
    PickerState(!st.isOpen, if !st.isOpen then "" else st.query)
  }

  /** Opening and closing again leaves a closed picker with an empty query. */
  lemma ToggleTwiceFromClosed(st: PickerState)
    requires !st.isOpen
    ensures ToggleDropdown(ToggleDropdown(st)) == InitialPicker
  {
  }

  /** The message under an empty list; none when at least one hospital is listed. */
  function EmptyMessage(hospitals: seq<Hospital>, query: string): (r: Option<string>)
    ensures r.Some? <==> |FilteredHospitals(hospitals, query)| == 0
  {
    if |FilteredHospitals(hospitals, query)| == 0 then
      Some(if query != "" then "No hospitals found" else "No hospitals available")
    else None
  }

  /** "No hospitals available" appears exactly when there are no hospitals at all and nothing was typed;
      "No hospitals found" exactly when a non-empty query matches nothing. */
  lemma EmptyMessageMeaning(hospitals: seq<Hospital>, query: string)
    ensures (EmptyMessage(hospitals, query) == Some("No hospitals available")) <==> (|hospitals| == 0 && query == "")
    ensures (EmptyMessage(hospitals, query) == Some("No hospitals found"))
              <==> (query != "" && |FilteredHospitals(hospitals, query)| == 0)
  {
    if query == "" {
      EmptyQueryListsAll(hospitals);
    }
  }

  /** What the picker button shows. */
  datatype ButtonLabel = Spinner | SelectedName(name: string) | Placeholder(text: string)

  function Label(isLoading: bool, selected: Option<Hospital>): (r: ButtonLabel)
    ensures r.Spinner? <==> isLoading
    ensures r.SelectedName? <==> !isLoading && selected.Some?
    ensures r.SelectedName? ==> r.name == selected.value.name
    ensures r.Placeholder? ==> r.text == "Select a hospital"
  {
    if isLoading then Spinner
    else if selected.Some? then SelectedName(selected.value.name)
    else Placeholder("Select a hospital")
  }
}
