/**
 * The claim-form validation hook: `validateForm` builds a fresh error map, `clearErrors` and `setFieldError`
 * edit the current one. "Now" is a parameter.
 */
module FormValidation {
  import opened Options
  import opened Text
  import opened ClaimTypes

  const MaxDocuments := 10

  /** The five field constraints, stated positively. */
  /** `trim().length >= 2`, where `length` counts UTF-16 code units. */
  predicate PatientNameOk(name: string) { Utf16Length(Trim(name)) >= 2 }

  predicate AdmissionDateOk(date: Option<int>, now: int) { date.Some? && date.value <= now }

  predicate TpaOk(tpaId: string) { tpaId != "" }

  predicate ServicesOk(serviceIds: seq<string>) { |serviceIds| > 0 }

  predicate DocumentsOk(documents: seq<Document>) { 1 <= |documents| <= MaxDocuments }

  predicate FormComplete(form: ClaimFormData, now: int) {
    && PatientNameOk(form.patientName)
    && AdmissionDateOk(form.admissionDate, now)
    && TpaOk(form.tpaId)
    && ServicesOk(form.serviceIds)
    && DocumentsOk(form.documents)
  }

  function PatientNameError(name: string): (r: Option<string>)
    ensures r.None? <==> PatientNameOk(name)
  {
    var trimmed := Trim(name);
    if |trimmed| == 0 then Some("Patient name is required")
    else if Utf16Length(trimmed) < 2 then Some("Patient name must be at least 2 characters")
    else None
  }

  /** Two characters of trimmed text are enough, and so is one character outside the Basic Multilingual Plane,
      which JavaScript counts twice. */
  lemma PatientNameLength(name: string)
    ensures PatientNameOk(name) <==> |Trim(name)| >= 2 || (|Trim(name)| == 1 && IsAstral(Trim(name)[0]))
  {
    var t := Trim(name);
    if |t| == 1 {
      assert t[1..] == "";
    }
  }

  lemma OneEmojiIsLongEnough()
    ensures PatientNameOk("\U{1F600}") && !PatientNameOk(" a ")
  {
    PatientNameLength("\U{1F600}");
    PatientNameLength(" a ");
  }

  function AdmissionDateError(date: Option<int>, now: int): (r: Option<string>)
    ensures r.None? <==> AdmissionDateOk(date, now)
  {
    if date.None? then Some("Admission date is required")
    else if date.value > now then Some("Admission date cannot be in the future")
    else None
  }

  function TpaError(tpaId: string): (r: Option<string>)
    ensures r.None? <==> TpaOk(tpaId)
  {
    if tpaId == "" then Some("TPA selection is required") else None
  }

  function ServicesError(serviceIds: seq<string>): (r: Option<string>)
    ensures r.None? <==> ServicesOk(serviceIds)
  {
    if |serviceIds| == 0 then Some("At least one service must be selected") else None
  }

  function DocumentsError(documents: seq<Document>): (r: Option<string>)
    ensures r.None? <==> DocumentsOk(documents)
  {
    if |documents| == 0 then Some("At least one document must be uploaded")
    else if |documents| > MaxDocuments then Some("Maximum 10 files allowed")
    else None
  }

  /** Records `message` under `field` when there is one. */
  function Record(errors: ValidationErrors, field: FormField, message: Option<string>): (r: ValidationErrors)
    ensures message.Some? ==> r == errors[field := message.value]
    ensures message.None? ==> r == errors
  {
    if message.Some? then errors[field := message.value] else errors
  }

  /** `validateForm(formData)`: a message exactly for each failing field, so the map is empty exactly when all
      five constraints hold. */
  function ValidateForm(form: ClaimFormData, now: int): (errors: ValidationErrors)
    ensures PatientNameField in errors <==> !PatientNameOk(form.patientName)
    ensures AdmissionDateField in errors <==> !AdmissionDateOk(form.admissionDate, now)
    ensures TpaIdField in errors <==> !TpaOk(form.tpaId)
    ensures ServiceIdsField in errors <==> !ServicesOk(form.serviceIds)
    ensures DocumentsField in errors <==> !DocumentsOk(form.documents)
    ensures errors == map[] <==> FormComplete(form, now)
  {
    var e1 := Record(map[], PatientNameField, PatientNameError(form.patientName));
    var e2 := Record(e1, AdmissionDateField, AdmissionDateError(form.admissionDate, now));
    var e3 := Record(e2, TpaIdField, TpaError(form.tpaId));
    var e4 := Record(e3, ServiceIdsField, ServicesError(form.serviceIds));
    var e5 := Record(e4, DocumentsField, DocumentsError(form.documents));
    assert !FormComplete(form, now) ==> e5 != map[] by {
      if !PatientNameOk(form.patientName) { assert PatientNameField in e5; }
      else if !AdmissionDateOk(form.admissionDate, now) { assert AdmissionDateField in e5; }
      else if !TpaOk(form.tpaId) { assert TpaIdField in e5; }
      else if !ServicesOk(form.serviceIds) { assert ServiceIdsField in e5; }
      else if !DocumentsOk(form.documents) { assert DocumentsField in e5; }
    }
    e5
  }

  /** The message recorded for each failing field. */
  lemma ValidateFormMessages(form: ClaimFormData, now: int)
    ensures var errors := ValidateForm(form, now);
      && (PatientNameField in errors ==>
            errors[PatientNameField] == (if AllChars(form.patientName, IsSpace) then "Patient name is required"
                                         else "Patient name must be at least 2 characters"))
      && (AdmissionDateField in errors ==>
            errors[AdmissionDateField] == (if form.admissionDate.None? then "Admission date is required"
                                           else "Admission date cannot be in the future"))
      && (TpaIdField in errors ==> errors[TpaIdField] == "TPA selection is required")
      && (ServiceIdsField in errors ==> errors[ServiceIdsField] == "At least one service must be selected")
      && (DocumentsField in errors ==>
            errors[DocumentsField] == (if |form.documents| == 0 then "At least one document must be uploaded"
                                       else "Maximum 10 files allowed"))
  {
    ValidateFormRecords(form, now);
  }

  /** Each recorded message is the one its field's check produced. */
  lemma ValidateFormRecords(form: ClaimFormData, now: int)
    ensures var errors := ValidateForm(form, now);
      && (PatientNameField in errors ==> errors[PatientNameField] == PatientNameError(form.patientName).value)
      && (AdmissionDateField in errors ==> errors[AdmissionDateField] == AdmissionDateError(form.admissionDate, now).value)
      && (TpaIdField in errors ==> errors[TpaIdField] == TpaError(form.tpaId).value)
      && (ServiceIdsField in errors ==> errors[ServiceIdsField] == ServicesError(form.serviceIds).value)
      && (DocumentsField in errors ==> errors[DocumentsField] == DocumentsError(form.documents).value)
  {
    var e1 := Record(map[], PatientNameField, PatientNameError(form.patientName));
    var e2 := Record(e1, AdmissionDateField, AdmissionDateError(form.admissionDate, now));
    var e3 := Record(e2, TpaIdField, TpaError(form.tpaId));
    var e4 := Record(e3, ServiceIdsField, ServicesError(form.serviceIds));
    var e5 := Record(e4, DocumentsField, DocumentsError(form.documents));
    assert ValidateForm(form, now) == e5;
  }

  /** `clearErrors(field)` removes that field's message; `clearErrors()` removes all. */
  function ClearErrors(errors: ValidationErrors, field: Option<FormField>): (r: ValidationErrors)
    ensures field.None? ==> |r| == 0
    ensures field.Some? ==> field.value !in r
    ensures field.Some? ==> forall g | g != field.value :: (g in r <==> g in errors) && (g in r ==> r[g] == errors[g])
  {
    match field
    case None => map[]
    case Some(f) => errors - {f}
  }

  /** `setFieldError(field, message)`: that field gets the message, the others keep theirs. */
  function SetFieldError(errors: ValidationErrors, field: FormField, message: string): (r: ValidationErrors)
    ensures field in r && r[field] == message
    ensures forall g | g != field :: (g in r <==> g in errors) && (g in r ==> r[g] == errors[g])
  {
    errors[field := message]
  }

  /** Setting then clearing a field leaves the other fields as they were; the edits are idempotent. */
  lemma ErrorEditsCommute(errors: ValidationErrors, f: FormField, m: string)
    ensures ClearErrors(SetFieldError(errors, f, m), Some(f)) == ClearErrors(errors, Some(f))
    ensures SetFieldError(SetFieldError(errors, f, m), f, m) == SetFieldError(errors, f, m)
    ensures ClearErrors(ClearErrors(errors, Some(f)), Some(f)) == ClearErrors(errors, Some(f))
  {
  }
}
