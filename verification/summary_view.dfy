/**
 * The dashboard summary: the metric cards, the per-stage breakdown, the date-range label and modal, and the
 * one-row CSV export. Counts are whole numbers here.
 */
module SummaryView {
  import opened Options
  import opened Text
  import opened ClaimTypes
  import opened AuthTypes
  import CsvExport
  import ClaimStatusCard

  datatype SummaryMetrics = SummaryMetrics(
    totalClaims: int,
    completedClaims: int,
    inProcessClaims: int,
    totalHospitals: int,
    claimStageBreakdown: map<ClaimStage, int>)

  /** `claimStageBreakdown[stage] || 0`: a missing (or zero) count reads as 0. */
  function CountOf(breakdown: map<ClaimStage, int>, st: ClaimStage): (n: int)
    ensures st !in breakdown ==> n == 0
    ensures st in breakdown ==> n == breakdown[st]
  {
    if st in breakdown then breakdown[st] else 0
  }

  /** `value || 'All'` for a date bound. */
  function OrAll(date: string): (r: string)
    ensures r != ""
    ensures date != "" ==> r == date
  {
    if date == "" then "All" else date
  }

  const ExportHeaders: seq<string> := [
    "Total Claims", "Completed Claims", "In Process Claims", "Total Hospitals",
    "Admitted", "Discharged", "File Submitted", "Settled", "Pending", "Rejected",
    "Date From", "Date To"]

  /** The single row `handleExport` builds. */
  function ExportRow(m: SummaryMetrics, dateFrom: string, dateTo: string): (r: CsvExport.Row)
    ensures CsvExport.Keys(r) == ExportHeaders
    ensures r[0].1 == CsvExport.Num(m.totalClaims) && r[1].1 == CsvExport.Num(m.completedClaims)
    ensures r[2].1 == CsvExport.Num(m.inProcessClaims) && r[3].1 == CsvExport.Num(m.totalHospitals)
    ensures forall i | 0 <= i < 6 ::
              r[4 + i] == (StageName(AllStages[i]), CsvExport.Num(CountOf(m.claimStageBreakdown, AllStages[i])))
    ensures r[10].1 == CsvExport.Str(OrAll(dateFrom)) && r[11].1 == CsvExport.Str(OrAll(dateTo))
  {
    var b := m.claimStageBreakdown;
    [("Total Claims", CsvExport.Num(m.totalClaims)),
     ("Completed Claims", CsvExport.Num(m.completedClaims)),
     ("In Process Claims", CsvExport.Num(m.inProcessClaims)),
     ("Total Hospitals", CsvExport.Num(m.totalHospitals)),
     ("Admitted", CsvExport.Num(CountOf(b, Admitted))),
     ("Discharged", CsvExport.Num(CountOf(b, Discharged))),
     ("File Submitted", CsvExport.Num(CountOf(b, FileSubmitted))),
     ("Settled", CsvExport.Num(CountOf(b, Settled))),
     ("Pending", CsvExport.Num(CountOf(b, Pending))),
     ("Rejected", CsvExport.Num(CountOf(b, Rejected))),
     ("Date From", CsvExport.Str(OrAll(dateFrom))),
     ("Date To", CsvExport.Str(OrAll(dateTo)))]
  }

  /** What `handleExport` produces: the CSV text (its file name carries the role and today's date) and the
      rows handed to `onExport`. */
  datatype ExportResult = ExportResult(csv: string, rows: seq<CsvExport.Row>)

  function HandleExport(m: SummaryMetrics, role: UserRole, dateFrom: string, dateTo: string, today: string)
    : (r: ExportResult)
    ensures r.csv != ""
    ensures |r.rows| == 1 && r.rows[0] == ExportRow(m, dateFrom, dateTo)
  {
    var rows := [ExportRow(m, dateFrom, dateTo)];
    ExportResult(CsvExport.ExportToCsv(rows, CsvExport.CsvOptions(Some(RoleName(role) + "_summary_" + today), None)),
                 rows)
  }

  /** The export is two lines: the twelve column names, then the values, as long as the typed dates hold
      no line break. */
  lemma ExportHasHeaderAndValueLines(m: SummaryMetrics, role: UserRole, dateFrom: string, dateTo: string,
                                     today: string)
    requires '\n' !in dateFrom && '\n' !in dateTo
    ensures var lines := Split(HandleExport(m, role, dateFrom, dateTo, today).csv, '\n');
            |lines| == 2 && lines[0] == Join(ExportHeaders, ',')
            && lines[1] == CsvExport.RowLine(ExportHeaders, ExportRow(m, dateFrom, dateTo))
  {
    var row := ExportRow(m, dateFrom, dateTo);
    var options := CsvExport.CsvOptions(Some(RoleName(role) + "_summary_" + today), None);
    var headers := CsvExport.HeadersFor([row], options);
    assert headers == ExportHeaders;
    ExportHeadersHaveNoBreak();
    forall i, k | 0 <= i < 1 && 0 <= k < |headers|
      ensures '\n' !in CsvExport.RawField([row][i], headers[k])
    {
      RawFieldsHaveNoBreak(m, dateFrom, dateTo, headers[k]);
    }
    CsvExport.ExportLines([row], options);
  }

  lemma ExportHeadersHaveNoBreak()
    ensures forall k | 0 <= k < |ExportHeaders| :: '\n' !in ExportHeaders[k]
  {
  }

  lemma RawFieldsHaveNoBreak(m: SummaryMetrics, dateFrom: string, dateTo: string, header: string)
    requires '\n' !in dateFrom && '\n' !in dateTo
    ensures '\n' !in CsvExport.RawField(ExportRow(m, dateFrom, dateTo), header)
  {
    var row := ExportRow(m, dateFrom, dateTo);
    var v := CsvExport.Lookup(row, header);
    if v.Some? {
      var k :| 0 <= k < |row| && row[k] == (header, v.value);
      if v.value.Num? {
        var s := CsvExport.IntToString(v.value.n);
        assert forall i | 0 <= i < |s| :: s[i] != '\n';
      }
    }
  }

  /** `getStageColor`: the stage's badge border colour. */
  function StageColor(st: ClaimStage): (c: string)
    ensures c == ClaimStatusCard.StageColors(st).border
  {
    match st
    case Admitted => "#2196F3"
    case Discharged => "#4CAF50"
    case FileSubmitted => "#FF9800"
    case Settled => "#4CAF50"
    case Pending => "#FFC107"
    case Rejected => "#F44336"
  }

  /** Discharged and Settled share a colour; every other pair of stages differs. */
  lemma StageColorShared(a: ClaimStage, b: ClaimStage)
    ensures StageColor(a) == StageColor(b) <==> a == b || {a, b} == {Discharged, Settled}
  {
    if {a, b} == {Discharged, Settled} {
      assert a == Discharged || a == Settled;
    }
  }

  /** One breakdown entry: the stage, its count and its colour. */
  datatype StageEntry = StageEntry(stage: ClaimStage, count: int, color: string)

  /** `renderStageBreakdown`: one entry per stage, in enum order. */
  function StageBreakdown(m: SummaryMetrics): (r: seq<StageEntry>)
    ensures |r| == |AllStages|
    ensures forall i | 0 <= i < |r| :: r[i].stage == AllStages[i]
    ensures forall i | 0 <= i < |r| :: r[i].count == CountOf(m.claimStageBreakdown, r[i].stage)
    ensures forall i | 0 <= i < |r| :: r[i].color == StageColor(r[i].stage)
  {
    seq(|AllStages|, i requires 0 <= i < |AllStages| =>
      StageEntry(AllStages[i], CountOf(m.claimStageBreakdown, AllStages[i]), StageColor(AllStages[i])))
  }

  /** Every stage has exactly one entry. */
  lemma BreakdownListsEachStageOnce(m: SummaryMetrics, st: ClaimStage)
    ensures exists i | 0 <= i < |StageBreakdown(m)| :: StageBreakdown(m)[i].stage == st
    ensures forall i, j | 0 <= i < j < |StageBreakdown(m)| :: StageBreakdown(m)[i].stage != StageBreakdown(m)[j].stage
  {
    AllStagesEnumerates();
    var i := StageIndex(st);
    assert StageBreakdown(m)[i].stage == st;
  }

  datatype MetricCard = MetricCard(title: string, value: int, color: string)

  /** The key-metric cards; the hospital role does not see the hospital count. */
  function MetricCards(m: SummaryMetrics, role: UserRole): (r: seq<MetricCard>)
    ensures |r| == if role == HospitalRole then 3 else 4
    ensures (exists i | 0 <= i < |r| :: r[i].title == "Total Hospitals") <==> role != HospitalRole
    ensures r[0] == MetricCard("Total Claims", m.totalClaims, "#4CAF50")
    ensures r[1] == MetricCard("Completed Claims", m.completedClaims, "#2196F3")
    ensures r[2] == MetricCard("In Process Claims", m.inProcessClaims, "#FF9800")
    ensures forall i | 0 <= i < |r| :: r[i].title == "Total Hospitals" ==> r[i] == MetricCard("Total Hospitals", m.totalHospitals, "#9C27B0")
  {
    var base := [MetricCard("Total Claims", m.totalClaims, "#4CAF50"),
                 MetricCard("Completed Claims", m.completedClaims, "#2196F3"),
                 MetricCard("In Process Claims", m.inProcessClaims, "#FF9800")];
    if role != HospitalRole then
      var r := base + [MetricCard("Total Hospitals", m.totalHospitals, "#9C27B0")];
      assert r[3].title == "Total Hospitals";
      r
    else base
  }

  /** The date-range caption under the title; absent when neither bound is set. */
  function DateLabel(dateFrom: string, dateTo: string): (r: Option<string>)
    ensures r.None? <==> dateFrom == "" && dateTo == ""
    ensures r.Some? ==> (dateFrom != "" ==> Contains(r.value, dateFrom)) && (dateTo != "" ==> Contains(r.value, dateTo))
    ensures r.Some? && dateFrom != "" && dateTo != "" ==> r.value == dateFrom + " to " + dateTo
    ensures (dateFrom == "") != (dateTo == "") ==> r == Some(dateFrom + dateTo)
  {
    if dateFrom == "" && dateTo == "" then None
    else if dateFrom != "" && dateTo != "" then
      var s := dateFrom + " to " + dateTo;
      assert OccursAt(s, dateFrom, 0);
      assert s[|dateFrom + " to "|..] == dateTo;
      assert OccursAt(s, dateTo, |dateFrom + " to "|);
      Some(s)
    else
      var s := if dateFrom != "" then dateFrom else dateTo;
      assert OccursAt(s, s, 0);
      assert dateFrom == "" ==> dateFrom + dateTo == dateTo;
      assert dateTo == "" ==> dateFrom + dateTo == dateFrom;
      Some(s)
  }

  /** The date modal's text fields. */
  datatype DateInputs = DateInputs(dateFrom: string, dateTo: string)

  /** A modal button: the fields afterwards and the pair handed to `onApply`; both buttons close the modal. */
  datatype ModalResult = ModalResult(inputs: DateInputs, applied: (string, string))

  function ModalApply(inputs: DateInputs): (r: ModalResult)
    ensures r.inputs == inputs && r.applied == (inputs.dateFrom, inputs.dateTo)
  {
    ModalResult(inputs, (inputs.dateFrom, inputs.dateTo))
  }

  function ModalClear(inputs: DateInputs): (r: ModalResult)
    ensures r.inputs == DateInputs("", "") && r.applied == ("", "")
  {
    ModalResult(DateInputs("", ""), ("", ""))
  }

  /** The summary's own state: the bounds last applied. */
  datatype SummaryState = SummaryState(currentDateFrom: string, currentDateTo: string)

  /** `handleDateFilterApply`: stores the pair (and forwards it to the parent unchanged). */
  function HandleDateFilterApply(st: SummaryState, applied: (string, string)): (r: SummaryState)
    ensures r.currentDateFrom == applied.0 && r.currentDateTo == applied.1
  {
    SummaryState(applied.0, applied.1)
  }

  /** After "Clear" the caption disappears and both bounds export as 'All'. */
  lemma ClearResetsLabelAndExport(st: SummaryState, inputs: DateInputs, m: SummaryMetrics)
    ensures var s := HandleDateFilterApply(st, ModalClear(inputs).applied);
            && DateLabel(s.currentDateFrom, s.currentDateTo).None?
            && ExportRow(m, s.currentDateFrom, s.currentDateTo)[10].1 == CsvExport.Str("All")
            && ExportRow(m, s.currentDateFrom, s.currentDateTo)[11].1 == CsvExport.Str("All")
  {
  }
}
