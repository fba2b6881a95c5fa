/** A row of the claim list; its status badge is coloured by the claim's own stage text. */
module ClaimListItem {
  import opened Text
  import opened ClaimTypes
  import opened ClaimStatusCard

  /** The badge colours of a claim. */
  function BadgeColors(claim: ClaimItem): (r: StatusColors)
    ensures r == StatusColor(claim.claimStage)
    ensures r == DefaultColors <==> StageIgnoringCase(claim.claimStage).None?
  {
    StatusColor(claim.claimStage)
  }

  /** The badge depends only on the stage text, ignoring case: every other field is irrelevant. */
  lemma BadgeIgnoresOtherFields(a: ClaimItem, b: ClaimItem)
    requires ToLower(a.claimStage) == ToLower(b.claimStage)
    ensures BadgeColors(a) == BadgeColors(b)
  {
    StatusColorIgnoresCase(a.claimStage, b.claimStage);
  }

  /** A discharged and a settled claim wear the same badge. */
  lemma DischargedLooksSettled(a: ClaimItem, b: ClaimItem)
    requires a.claimStage == StageName(Discharged) && b.claimStage == StageName(Settled)
    ensures BadgeColors(a) == BadgeColors(b) != DefaultColors
  {
    StageIgnoringCaseOfName(Discharged);
    StageIgnoringCaseOfName(Settled);
  }
}
