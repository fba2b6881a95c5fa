/**
 * The claim status card: the badge colour table looked up on the lower-cased stage text, the description that
 * appends one sentence per known stage, and the date line. The list item and the hospital search screen use the
 * same table.
 */
module ClaimStatusCard {
  import opened Options
  import opened Text
  import opened ClaimTypes

  datatype StatusColors = StatusColors(background: string, text: string, border: string)

  const DefaultColors := StatusColors("#F5F5F5", "#757575", "#9E9E9E")

  /** The colour triple of each stage. */
  function StageColors(st: ClaimStage): StatusColors {
    match st
    case Admitted => StatusColors("#E3F2FD", "#1976D2", "#2196F3")
    case Discharged => StatusColors("#E8F5E8", "#2E7D32", "#4CAF50")
    case FileSubmitted => StatusColors("#FFF3E0", "#F57C00", "#FF9800")
    case Settled => StatusColors("#E8F5E8", "#2E7D32", "#4CAF50")
    case Pending => StatusColors("#FFF8E1", "#F57F17", "#FFC107")
    case Rejected => StatusColors("#FFEBEE", "#D32F2F", "#F44336")
  }

  /** `getStatusColor`: the switch on `status.toLowerCase()`, grey for any other text. */
  function StatusColor(status: string): (r: StatusColors)
    ensures r == DefaultColors <==> StageIgnoringCase(status).None?
    ensures StageIgnoringCase(status).Some? ==> r == StageColors(StageIgnoringCase(status).value)
  {
    match StageIgnoringCase(status)
    case Some(st) => StageColors(st)
    case None => DefaultColors
  }

  /** Two stages share a triple exactly when they are Discharged and Settled (or equal). */
  lemma StageColorsShared(a: ClaimStage, b: ClaimStage)
    ensures StageColors(a) == StageColors(b) <==> a == b || {a, b} == {Discharged, Settled}
  {
    if {a, b} == {Discharged, Settled} {
      assert a == Discharged || a == Settled;
    }
  }

  /** The lookup ignores case: texts equal after lower-casing get the same colours. */
  lemma StatusColorIgnoresCase(s: string, t: string)
    requires ToLower(s) == ToLower(t)
    ensures StatusColor(s) == StatusColor(t)
  {
  }

  /** Every stage value, in any letter case, gets its stage's colours. */
  lemma StatusColorOfStageName(st: ClaimStage, spelled: string)
    requires ToLower(spelled) == ToLower(StageName(st))
    ensures StatusColor(spelled) == StageColors(st)
  {
    StageIgnoringCaseOfName(st);
  }

  const DescriptionLead := "Your claim is currently in the \""

  function StageSentence(st: ClaimStage): string {
    match st
    case Settled => " The claim has been processed and completed."
    case Pending => " Your claim is under review. Please check back later for updates."
    case FileSubmitted => " Your claim file has been submitted and is being processed."
    case Admitted => " The patient has been admitted and treatment is ongoing."
    case Discharged => " The patient has been discharged and the claim is being processed."
    case Rejected => " Your claim has been rejected. Please contact support for more information."
  }

  /** One conditional piece of the description: the stage's sentence when the lower-cased text names it. */
  function SentenceIf(stage: string, st: ClaimStage): string {
    if ToLower(stage) == LowerStageName(st) then StageSentence(st) else ""
  }

  /** The description text: the lead, the stage text, then the six conditional sentences in source order. */
  function Description(stage: string): string {
    Lead(stage) + Sentences(stage)
  }

  function Lead(stage: string): string {
    DescriptionLead + stage + "\" stage."
  }

  function Sentences(stage: string): string {
    SentenceIf(stage, Settled) + SentenceIf(stage, Pending) + SentenceIf(stage, FileSubmitted)
    + SentenceIf(stage, Admitted) + SentenceIf(stage, Discharged) + SentenceIf(stage, Rejected)
  }

  /** The piece stage `st` contributes when the text names stage `k`. */
  function Piece(k: Option<ClaimStage>, st: ClaimStage): string {
    if k == Some(st) then StageSentence(st) else ""
  }

  /** Each conditional piece contributes its sentence exactly when the text names that stage. */
  lemma SentenceIfMatches(stage: string, st: ClaimStage)
    ensures SentenceIf(stage, st) == Piece(StageIgnoringCase(stage), st)
  {
  }

  /** Six pieces, each empty except possibly the `i`-th, concatenate to the `i`-th. */
  lemma OnlyPiece(p0: string, p1: string, p2: string, p3: string, p4: string, p5: string, i: int, x: string)
    requires (i == 0 || p0 == "") && (i == 1 || p1 == "") && (i == 2 || p2 == "")
    requires (i == 3 || p3 == "") && (i == 4 || p4 == "") && (i == 5 || p5 == "")
    requires (i == 0 ==> p0 == x) && (i == 1 ==> p1 == x) && (i == 2 ==> p2 == x)
    requires (i == 3 ==> p3 == x) && (i == 4 ==> p4 == x) && (i == 5 ==> p5 == x)
    requires 0 <= i < 6 || x == ""
    ensures p0 + p1 + p2 + p3 + p4 + p5 == x
  {
  }

  /** At most one of the six pieces is non-empty: the one of the named stage. */
  lemma PiecesSum(k: Option<ClaimStage>)
    ensures Piece(k, Settled) + Piece(k, Pending) + Piece(k, FileSubmitted)
            + Piece(k, Admitted) + Piece(k, Discharged) + Piece(k, Rejected)
            == (match k case Some(st) => StageSentence(st) case None => "")
  {
    var p0, p1, p2 := Piece(k, Settled), Piece(k, Pending), Piece(k, FileSubmitted);
    var p3, p4, p5 := Piece(k, Admitted), Piece(k, Discharged), Piece(k, Rejected);
    match k
    case None =>
      OnlyPiece(p0, p1, p2, p3, p4, p5, -1, "");
    case Some(Settled) =>
      OnlyPiece(p0, p1, p2, p3, p4, p5, 0, StageSentence(Settled));
    case Some(Pending) =>
      OnlyPiece(p0, p1, p2, p3, p4, p5, 1, StageSentence(Pending));
    case Some(FileSubmitted) =>
      OnlyPiece(p0, p1, p2, p3, p4, p5, 2, StageSentence(FileSubmitted));
    case Some(Admitted) =>
      OnlyPiece(p0, p1, p2, p3, p4, p5, 3, StageSentence(Admitted));
    case Some(Discharged) =>
      OnlyPiece(p0, p1, p2, p3, p4, p5, 4, StageSentence(Discharged));
    case Some(Rejected) =>
      OnlyPiece(p0, p1, p2, p3, p4, p5, 5, StageSentence(Rejected));
  }

  /** A known stage (in any case) gets exactly its own sentence after the lead, an unknown one none. */
  lemma DescriptionHasOneSentence(stage: string)
    ensures Description(stage) == Lead(stage)
              + (match StageIgnoringCase(stage) case Some(st) => StageSentence(st) case None => "")
  {
    var k := StageIgnoringCase(stage);
    SentenceIfMatches(stage, Settled);
    SentenceIfMatches(stage, Pending);
    SentenceIfMatches(stage, FileSubmitted);
    SentenceIfMatches(stage, Admitted);
    SentenceIfMatches(stage, Discharged);
    SentenceIfMatches(stage, Rejected);
    PiecesSum(k);
  }

  /** `formatDate`: an absent or empty date shows as ""; other dates go through the locale formatter. */
  function FormatDate(date: Option<string>, format: string -> string): (r: string)
    ensures (date.None? || date.value == "") ==> r == ""
    ensures date.Some? && date.value != "" ==> r == format(date.value)
  {
    if date.None? || date.value == "" then "" else format(date.value)
  }
}
