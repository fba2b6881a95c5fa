/**
 * The claim submission form's state transitions: field edits that clear their own error, the service
 * checklist toggle, adding picked documents under the count and size limits, removal by index, and the
 * validation gate in front of submission. Loading the TPA and service lists and the submission itself are
 * outside the model.
 */
module ClaimSubmissionForm {
  import opened Options
  import opened Seqs
  import opened ClaimTypes
  import FormValidation

  /** The per-file size limit, 5 MiB. */
  const MaxFileSize := 5 * 1024 * 1024

  function NotEqual(id: string): string -> bool {
    x => x != id
  }

  /** `handleServiceToggle`: removes every occurrence of a selected id, or appends an unselected one. */
  function ToggleService(ids: seq<string>, id: string): (r: seq<string>)
    ensures id in r <==> id !in ids
    ensures forall x | x != id :: x in r <==> x in ids
    ensures id !in ids ==> r == ids + [id]
    ensures IsSubsequence(ids, r) || IsSubsequence(r, ids)
  {
    if id in ids then
      FilterIsSubsequence(ids, NotEqual(id));
      Filter(ids, NotEqual(id))
    else
      IsSubsequenceAppend(ids, id);
      ids + [id]
  }

  lemma {:induction false} IsSubsequenceAppend(s: seq<string>, x: string)
    ensures IsSubsequence(s, s + [x])
    decreases |s|
  {
    if |s| > 0 {
      assert (s + [x])[1..] == s[1..] + [x];
      IsSubsequenceAppend(s[1..], x);
    }
  }

  /** Toggling an unselected id twice restores the list. */
  lemma ToggleTwiceRestores(ids: seq<string>, id: string)
    requires id !in ids
    ensures ToggleService(ToggleService(ids, id), id) == ids
  {
    FilterConcat(ids, [id], NotEqual(id));
    FilterAll(ids, NotEqual(id));
  }

  /** Toggling keeps the selection free of duplicates. */
  lemma ToggleKeepsDistinct(ids: seq<string>, id: string)
    requires Distinct(ids)
    ensures Distinct(ToggleService(ids, id))
  {
    if id in ids {
      FilterDistinct(ids, NotEqual(id));
    }
  }

  /** A picked asset; every field is optional. */
  datatype Asset = Asset(uri: Option<string>, fileName: Option<string>, mimeType: Option<string>,
                         fileSize: Option<int>)

  /** The image library's answer; `didCancel` absent reads as false. */
  datatype PickerResponse = PickerResponse(didCancel: bool, errorCode: Option<string>,
                                           errorMessage: Option<string>, assets: Option<seq<Asset>>)

  /** `value || fallback` for an optional string. */
  function OrElse(value: Option<string>, fallback: string): string {
    if value.Some? && value.value != "" then value.value else fallback
  }

  function ToDocument(a: Asset): (d: Document)
    ensures d.name != "" && d.mimeType != ""
  {
    Document(OrElse(a.uri, ""), OrElse(a.fileName, "document"), OrElse(a.mimeType, "application/octet-stream"),
             a.fileSize.GetOr(0))
  }

  function NewDocuments(assets: seq<Asset>): (r: seq<Document>)
    ensures |r| == |assets| && forall i | 0 <= i < |r| :: r[i] == ToDocument(assets[i])
  {
    seq(|assets|, i requires 0 <= i < |assets| => ToDocument(assets[i]))
  }

  function Oversized(d: Document): bool { d.size > MaxFileSize }

  /** The result of a pick: the new document list and the alert shown, if any. */
  datatype PickOutcome = PickOutcome(documents: seq<Document>, alert: Option<string>)

  /** `handleDocumentPick` after the picker returns. */
  function HandleDocumentPick(docs: seq<Document>, resp: PickerResponse): (r: PickOutcome)
    ensures r.documents == docs || (resp.assets.Some? && r.documents == docs + NewDocuments(resp.assets.value))
    ensures r.documents != docs <==> Accepted(docs, resp)
    ensures Accepted(docs, resp) ==> r.documents == docs + NewDocuments(resp.assets.value) && r.alert.None?
    ensures r.alert == Some("Maximum 10 files allowed") <==>
              Picked(resp) && |docs| + |resp.assets.value| > FormValidation.MaxDocuments
    ensures r.alert == Some("Some files exceed 5MB limit") <==>
              Picked(resp) && |docs| + |resp.assets.value| <= FormValidation.MaxDocuments && !Accepted(docs, resp)
    ensures !resp.didCancel && resp.errorCode.Some? && resp.errorCode.value != "" ==>
              r.alert == Some("Failed to pick documents: " + resp.errorMessage.GetOr("undefined"))
    ensures resp.didCancel ==> r == PickOutcome(docs, None)
    ensures !resp.didCancel && !(resp.errorCode.Some? && resp.errorCode.value != "") && !Picked(resp) ==>
              r == PickOutcome(docs, None)
  {
    if resp.didCancel then PickOutcome(docs, None)
    else if resp.errorCode.Some? && resp.errorCode.value != "" then
      var message := "Failed to pick documents: " + resp.errorMessage.GetOr("undefined");
      assert message[0] == 'F';
      PickOutcome(docs, Some(message))
    else if resp.assets.Some? && |resp.assets.value| > 0 then
      var newDocs := NewDocuments(resp.assets.value);
      if |docs| + |newDocs| > 10 then PickOutcome(docs, Some("Maximum 10 files allowed"))
      else if |Filter(newDocs, Oversized)| > 0 then
        assert !Accepted(docs, resp) by {
          var d := Filter(newDocs, Oversized)[0];
          var k :| 0 <= k < |newDocs| && newDocs[k] == d;
          assert resp.assets.value[k].fileSize.GetOr(0) > MaxFileSize;
        }
        PickOutcome(docs, Some("Some files exceed 5MB limit"))
      else
        assert |newDocs| > 0 ==> newDocs[0] in docs + newDocs;
        PickOutcome(docs + newDocs, None)
    else PickOutcome(docs, None)
  }

  /** The picker returned a non-empty selection without cancelling or failing. */
  predicate Picked(resp: PickerResponse) {
    !resp.didCancel && !(resp.errorCode.Some? && resp.errorCode.value != "")
    && resp.assets.Some? && |resp.assets.value| > 0
  }

  /** When a pick is accepted: a selection that keeps at most ten files, none above 5 MiB. */
  predicate Accepted(docs: seq<Document>, resp: PickerResponse) {
    Picked(resp) && |docs| + |resp.assets.value| <= FormValidation.MaxDocuments
    && forall i | 0 <= i < |resp.assets.value| :: resp.assets.value[i].fileSize.GetOr(0) <= MaxFileSize
  }

  /** The limits every document list built by the form respects. */
  predicate WithinLimits(docs: seq<Document>) {
    |docs| <= FormValidation.MaxDocuments && forall i | 0 <= i < |docs| :: docs[i].size <= MaxFileSize
  }

  /** Picking keeps the limits; an accepted pick leaves a list the form validator accepts. */
  lemma PickKeepsLimits(docs: seq<Document>, resp: PickerResponse)
    requires WithinLimits(docs)
    ensures WithinLimits(HandleDocumentPick(docs, resp).documents)
    ensures Accepted(docs, resp) ==> FormValidation.DocumentsOk(HandleDocumentPick(docs, resp).documents)
  {
    var r := HandleDocumentPick(docs, resp).documents;
    if Accepted(docs, resp) {
      var n := NewDocuments(resp.assets.value);
      forall i | 0 <= i < |r| ensures r[i].size <= MaxFileSize {
        if i >= |docs| {
          assert r[i] == n[i - |docs|];
        }
      }
    }
  }

  /** A file of exactly 5 MiB is accepted. */
  lemma FiveMiBIsAccepted()
    ensures var resp := PickerResponse(false, None, None, Some([Asset(None, None, None, Some(MaxFileSize))]));
            HandleDocumentPick([], resp) == PickOutcome([Document("", "document", "application/octet-stream", MaxFileSize)], None)
  {
    var resp := PickerResponse(false, None, None, Some([Asset(None, None, None, Some(MaxFileSize))]));
    var newDocs := NewDocuments(resp.assets.value);
    assert newDocs == [Document("", "document", "application/octet-stream", MaxFileSize)];
    assert Filter(newDocs, Oversized) == [];
  }

  /** `documents.filter((_, i) => i !== index)`. */
  function RemoveAt<T>(s: seq<T>, index: int): (r: seq<T>)
    ensures r == if 0 <= index < |s| then s[..index] + s[index + 1..] else s
    decreases |s|
  {
    if |s| == 0 then []
    else
      var rest := RemoveAt(s[1..], index - 1);
      assert 0 < index < |s| ==> s[..index] + s[index + 1..] == [s[0]] + (s[1..][..index - 1] + s[1..][index..]);
      (if index == 0 then [] else [s[0]]) + rest
  }

  /** Removal keeps the limits. */
  lemma RemoveKeepsLimits(docs: seq<Document>, index: int)
    requires WithinLimits(docs)
    ensures WithinLimits(RemoveAt(docs, index))
  {
    var r := RemoveAt(docs, index);
    if 0 <= index < |docs| {
      forall i | 0 <= i < |r| ensures r[i].size <= MaxFileSize {
        if i >= index {
          assert r[i] == docs[i + 1];
        }
      }
    }
  }

  datatype FormState = FormState(form: ClaimFormData, errors: ValidationErrors, showDatePicker: bool)

  /** A new value for one of the fields the form edits through `handleFieldChange`: the name and TPA inputs
      and the date picker. Services and documents have handlers of their own. */
  datatype FieldUpdate =
    | PatientNameIs(name: string)
    | AdmissionDateIs(date: int)
    | TpaIdIs(tpaId: string)

  function FieldOf(u: FieldUpdate): FormField {
    match u
    case PatientNameIs(_) => PatientNameField
    case AdmissionDateIs(_) => AdmissionDateField
    case TpaIdIs(_) => TpaIdField
  }

  function Apply(form: ClaimFormData, u: FieldUpdate): ClaimFormData {
    match u
    case PatientNameIs(v) => form.(patientName := v)
    case AdmissionDateIs(v) => form.(admissionDate := Some(v))
    case TpaIdIs(v) => form.(tpaId := v)
  }

  /** `handleFieldChange`: the field takes the value and only its error is cleared. */
  function HandleFieldChange(st: FormState, u: FieldUpdate): (r: FormState)
    ensures FieldOf(u) !in r.errors
    ensures forall g | g != FieldOf(u) :: (g in r.errors <==> g in st.errors) && (g in r.errors ==> r.errors[g] == st.errors[g])
    ensures u.PatientNameIs? ==> r.form == st.form.(patientName := u.name)
    ensures u.TpaIdIs? ==> r.form == st.form.(tpaId := u.tpaId)
    ensures u.AdmissionDateIs? ==> r.form == st.form.(admissionDate := Some(u.date))
    ensures r.showDatePicker == st.showDatePicker
  {
    st.(form := Apply(st.form, u), errors := FormValidation.ClearErrors(st.errors, Some(FieldOf(u))))
  }

  /** `handleDateChange`: the picker closes; a chosen date is stored like any other field edit. */
  function HandleDateChange(st: FormState, selected: Option<int>): (r: FormState)
    ensures !r.showDatePicker
    ensures selected.None? ==> r == st.(showDatePicker := false)
    ensures selected.Some? ==> r.form == st.form.(admissionDate := selected) && AdmissionDateField !in r.errors
    ensures selected.Some? ==> forall g | g != AdmissionDateField ::
              (g in r.errors <==> g in st.errors) && (g in r.errors ==> r.errors[g] == st.errors[g])
  {
    var closed := st.(showDatePicker := false);
    if selected.Some? then HandleFieldChange(closed, AdmissionDateIs(selected.value)) else closed
  }

  /** The service toggle on the form; it does not touch the errors. */
  function HandleServiceToggle(st: FormState, id: string): (r: FormState)
    ensures r.errors == st.errors && r.showDatePicker == st.showDatePicker
    ensures r.form.serviceIds == ToggleService(st.form.serviceIds, id)
    ensures id in r.form.serviceIds <==> id !in st.form.serviceIds
    ensures forall x | x != id :: x in r.form.serviceIds <==> x in st.form.serviceIds
    ensures r.form.patientName == st.form.patientName && r.form.admissionDate == st.form.admissionDate
    ensures r.form.tpaId == st.form.tpaId && r.form.documents == st.form.documents
  {
    st.(form := st.form.(serviceIds := ToggleService(st.form.serviceIds, id)))
  }

  /** `removeDocument` on the form. */
  function RemoveDocument(st: FormState, index: int): (r: FormState)
    ensures r.form.documents == RemoveAt(st.form.documents, index)
    ensures r.form.documents == if 0 <= index < |st.form.documents|
                                then st.form.documents[..index] + st.form.documents[index + 1..]
                                else st.form.documents
    ensures |r.form.documents| == if 0 <= index < |st.form.documents| then |st.form.documents| - 1
                                   else |st.form.documents|
    ensures r.errors == st.errors && r.showDatePicker == st.showDatePicker
    ensures r.form.patientName == st.form.patientName && r.form.admissionDate == st.form.admissionDate
    ensures r.form.tpaId == st.form.tpaId && r.form.serviceIds == st.form.serviceIds
  {
    st.(form := st.form.(documents := RemoveAt(st.form.documents, index)))
  }

  /** The result of pressing submit: the errors recorded, the alert shown, and whether submission starts. */
  datatype SubmitOutcome = SubmitOutcome(errors: ValidationErrors, alert: Option<string>, proceeds: bool)

  /** `handleSubmit` up to the hand-off: validation records its errors and blocks submission unless empty. */
  function HandleSubmit(st: FormState, now: int): (r: SubmitOutcome)
    ensures r.proceeds <==> FormValidation.FormComplete(st.form, now)
    ensures r.alert.Some? <==> !r.proceeds
    ensures r.alert.Some? ==> r.alert.value == "Please fill all required fields"
    ensures forall f: FormField :: f in r.errors <==> f in FormValidation.ValidateForm(st.form, now)
    ensures r.errors == FormValidation.ValidateForm(st.form, now)
  {
    var errors := FormValidation.ValidateForm(st.form, now);
    if errors != map[] then SubmitOutcome(errors, Some("Please fill all required fields"), false)
    else SubmitOutcome(errors, None, true)
  }
}
