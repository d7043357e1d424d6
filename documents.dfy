/** The Firestore documents the moderation backend reads and writes, and the
    store as a value: one map per collection. Missing string fields are the
    empty string and missing timestamps `None`; every test the backend makes
    on them is a truthiness test or a comparison with a non-empty literal, so
    the empty string behaves as `undefined` or `null` does. Times are
    milliseconds. */
module Documents {
  import opened Basics
  import opened Fingerprints
  import opened Classification
  import opened Requests

  /** The claim on a review case (`lock`). */
  datatype Lock = Lock(claimedByUid: string, claimedByEmail: string, claimedAt: int, expiresAt: int)

  /** A `reviewCases` document. `status` is kept as the stored string. */
  datatype ReviewCase = ReviewCase(
    userId: string, status: string, decision: string,
    fingerprints: seq<Fingerprint>, linkedUploadIds: seq<string>, uploadId: string,
    lock: Option<Lock>,
    decisionMessagePublic: string, decisionReasons: seq<string>, moderatorNoteInternal: string,
    decidedByUid: string, decidedByEmail: string)

  /** An `uploads` document. The fields from `storagePath` on are written by
      other parts of the application and only read here. */
  datatype Upload = Upload(
    userId: string, outcome: Outcome,
    appliedTriggers: seq<TriggerRecord>, suggestedTriggers: seq<TriggerRecord>,
    forbiddenReasons: seq<ForbiddenReason>,
    reviewCaseId: string, fingerprints: Fingerprint, matchedUploadId: string,
    reviewStatus: string, reviewDecisionMessagePublic: string, reviewDecisionReasons: seq<string>,
    publicationStatus: string, approvedAt: Option<int>,
    storagePath: string, imageRef: string, caption: string, tags: seq<string>)

  /** A `userModeration` document. */
  datatype UserModeration = UserModeration(
    openReviewCount: int, cooldownUntil: Option<int>, falseAppealCount: int, reviewRightsLevel: int)

  /** The document `getUserModeration` writes for a user seen for the first time. */
  const InitialUserModeration := UserModeration(0, None, 0, 1)

  /** `users/{uid}/threads/moderation`. */
  datatype Thread = Thread(title: string, pinned: bool)

  const ModerationThreadTitle := "Artes Moderatie"

  /** A document of `users/{uid}/threads/moderation/messages`. */
  datatype StoredMessage = StoredMessage(content: DecisionMessage, uploadId: string, reviewCaseId: string)

  /** A document of `users/{uid}/drafts`. */
  datatype Draft = Draft(uploadId: string, storagePath: string, imageRef: string, caption: string,
                         tags: seq<string>, status: string)

  /** The store. Messages and drafts are keyed by (user id, document id). */
  datatype Db = Db(
    uploads: map<string, Upload>,
    reviewCases: map<string, ReviewCase>,
    userModeration: map<string, UserModeration>,
    threads: map<string, Thread>,
    messages: map<(string, string), StoredMessage>,
    drafts: map<(string, string), Draft>)

  /** An HTTP error answer: its status and its `error` text. */
  datatype Failure = Failure(status: int, error: string)

  /** The authenticated moderator of a request: the token's uid and
      lower-cased email and whether `ensureModerator` accepts it. */
  datatype Caller = Caller(uid: string, email: string, isModerator: bool)

  const NotModerator := Failure(403, "Not a moderator")
  const CaseIdRequired := Failure(400, "reviewCaseId is required")
  const CaseNotFound := Failure(404, "Review case not found")
}
