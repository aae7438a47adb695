/** The review session and its parts (domain/review_models.py), with the fields the model reads. */
module ReviewModels {
  import opened Wrappers

  /** A SHA-256 digest under the assumption that no two contents collide. */
  datatype Digest = Sha256(preimage: string)

  datatype SourceFile = SourceFile(path: string, content: string)

  datatype LineRange = LineRange(startLine: int, endLine: int)

  datatype Finding = Finding(id: string, fileId: string, startLine: int, endLine: int)

  datatype FindingDecision = Fixed | AcceptedRisk | Deferred | Dismissed

  datatype FindingState =
    | StateActive | StateCandidateReady | StateFixedPendingRevalidation | StateFixedVerified
    | StateAcceptedRisk | StateDeferred | StateDismissed | StateReopened

  datatype ReviewStatus = Queued | Planning | Reviewing | Aggregating | Completed | Failed | Cancelled

  datatype RecheckStatus = RecheckRunning | RecheckCompleted | RecheckFailed | RecheckTimedOut

  datatype Revision = Revision(
    id: string, findingId: string, fileId: string, path: string,
    beforeContent: string, beforeRanges: Option<seq<LineRange>>,
    beforeSha: Digest, afterSha: Digest, undone: bool)

  datatype Session = Session(
    reviewId: string, ownerId: string, title: Option<string>, status: ReviewStatus,
    files: map<string, SourceFile>, changedRanges: Option<map<string, seq<LineRange>>>,
    findings: seq<Finding>, decided: map<string, Finding>,
    decisions: map<string, FindingDecision>, states: map<string, FindingState>,
    revisions: seq<Revision>,
    recheckAttempt: Option<nat>, recheckStatus: Option<RecheckStatus>)

  predicate IsFinal(status: ReviewStatus) {
    status in {Completed, Cancelled, Failed}
  }

  function Sha(content: string): Digest {
    Sha256(content)
  }
}
