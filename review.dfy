/** The moderator endpoints (`moderatorClaim`, `moderatorRelease`,
    `moderatorDecide`) and the maker's answer to a decision
    (`userModerationAction`), each as a transaction on the store: the reply
    and the store afterwards. A request that fails writes nothing, as a
    Firestore transaction that throws commits nothing. */
module Review {
  import opened Basics
  import opened Strings
  import opened Requests
  import opened Documents

  /** `lockDurationMs`: ten minutes. */
  const LockDurationMs: int := 10 * 60 * 1000

  const NotInReview := Failure(409, "Review case is not in review")
  const AlreadyDecided := Failure(409, "Review case already decided")
  const LockedByAnother := Failure(423, "Review case locked by another moderator")
  const InvalidDecision := Failure(400, "Invalid decision")
  const MessageRequired := Failure(400, "decisionMessagePublic is required")
  const MessageTooLong := Failure(400, "decisionMessagePublic must be <= 280 chars")
  const TooManyReasons := Failure(400, "decisionReasons must be max 3 items")
  const MissingTarget := Failure(400, "Review case missing uploadId or userId")
  /** The commit of an update to a missing upload fails; the answer carries
      the store's own error text, which is not modelled. */
  const UploadMissing := Failure(500, "")

  // ----- Locks -----

  /** `isLocked`: a claim whose expiry lies after `now`. */
  predicate IsLocked(lock: Option<Lock>, now: int)
  {
    lock.Some? && lock.value.expiresAt > now
  }

  /** The claim keeps `uid` from claiming: it is live and someone else's. */
  predicate HeldByOther(lock: Option<Lock>, uid: string, now: int)
  {
    IsLocked(lock, now) && lock.value.claimedByUid != uid
  }

  /** The claim keeps `uid` from deciding: as above, and it names a claimant. */
  predicate BlocksDecision(lock: Option<Lock>, uid: string, now: int)
  {
    HeldByOther(lock, uid, now) && lock.value.claimedByUid != ""
  }

  /** The claim a moderator takes at `now`. */
  function ClaimLock(caller: Caller, now: int): Lock
  {
    Lock(caller.uid, caller.email, now, now + LockDurationMs)
  }

  /** `{claimed, claimedBy}`; `claimedBy` is "" for `null`. */
  datatype ClaimReply = ClaimReply(claimed: bool, claimedBy: string)

  /** The store with one review case replaced. */
  function SetCase(db: Db, id: string, c: ReviewCase): (r: Db)
    ensures r.reviewCases == db.reviewCases[id := c]
    ensures r.uploads == db.uploads && r.userModeration == db.userModeration
    ensures r.threads == db.threads && r.messages == db.messages && r.drafts == db.drafts
  {
    db.(reviewCases := db.reviewCases[id := c])
  }

  // ----- moderatorClaim -----

  /** `moderatorClaim`: a moderator takes a ten-minute claim on a case that
      is in review, unless another moderator holds a live claim, in which
      case the answer names that moderator and nothing changes. */
  function ClaimTransaction(db: Db, caller: Caller, id: string, now: int): (r: (Result<ClaimReply, Failure>, Db))
    ensures r.0.Err? ==> r.1 == db
    ensures !caller.isModerator ==> r.0 == Err(NotModerator)
    ensures caller.isModerator && id == "" ==> r.0 == Err(CaseIdRequired)
    ensures caller.isModerator && id != "" && id !in db.reviewCases ==> r.0 == Err(CaseNotFound)
    ensures caller.isModerator && id != "" && id in db.reviewCases && db.reviewCases[id].status != "inReview" ==>
              r.0 == Err(NotInReview)
    ensures r.0.Ok? <==> caller.isModerator && id != "" && id in db.reviewCases && db.reviewCases[id].status == "inReview"
    ensures r.0.Ok? ==> (r.0.value.claimed <==> !HeldByOther(db.reviewCases[id].lock, caller.uid, now))
    ensures r.0.Ok? && r.0.value.claimed ==>
              && r.0.value.claimedBy == caller.email
              && r.1 == SetCase(db, id, db.reviewCases[id].(lock := Some(ClaimLock(caller, now))))
    ensures r.0.Ok? && !r.0.value.claimed ==>
              r.1 == db && r.0.value.claimedBy == db.reviewCases[id].lock.value.claimedByEmail
  {
    if !caller.isModerator then (Err(NotModerator), db)
    else if id == "" then (Err(CaseIdRequired), db)
    else if id !in db.reviewCases then (Err(CaseNotFound), db)
    else
      var c := db.reviewCases[id];
      if c.status != "inReview" then (Err(NotInReview), db)
      else if HeldByOther(c.lock, caller.uid, now) then (Ok(ClaimReply(false, c.lock.value.claimedByEmail)), db)
      else (Ok(ClaimReply(true, caller.email)), SetCase(db, id, c.(lock := Some(ClaimLock(caller, now)))))
  }

  // ----- moderatorRelease -----

  /** The claim was taken by `uid` (live or expired). */
  predicate HeldBy(lock: Option<Lock>, uid: string)
  {
    lock.Some? && lock.value.claimedByUid == uid
  }

  /** `moderatorRelease`: the claimant's own claim is dropped; anything else,
      a missing case included, is answered `ok` without a change. */
  function ReleaseTransaction(db: Db, caller: Caller, id: string): (r: (Result<(), Failure>, Db))
    ensures r.0.Err? ==> r.1 == db
    ensures !caller.isModerator ==> r.0 == Err(NotModerator)
    ensures caller.isModerator && id == "" ==> r.0 == Err(CaseIdRequired)
    ensures r.0.Ok? <==> caller.isModerator && id != ""
    ensures r.0.Ok? && id in db.reviewCases && HeldBy(db.reviewCases[id].lock, caller.uid) ==>
              r.1 == SetCase(db, id, db.reviewCases[id].(lock := None))
    ensures r.0.Ok? && !(id in db.reviewCases && HeldBy(db.reviewCases[id].lock, caller.uid)) ==> r.1 == db
  {
    if !caller.isModerator then (Err(NotModerator), db)
    else if id == "" then (Err(CaseIdRequired), db)
    else if id in db.reviewCases && HeldBy(db.reviewCases[id].lock, caller.uid) then
      (Ok(()), SetCase(db, id, db.reviewCases[id].(lock := None)))
    else (Ok(()), db)
  }

  // ----- moderatorDecide: request validation -----

  /** The `decisionReasons` field of the body: missing (defaults to `[]`), an
      array, or anything else. Array entries are modelled as strings. */
  datatype ReasonsField = ReasonsAbsent | ReasonsList(items: seq<string>) | ReasonsNotList

  datatype DecideRequest = DecideRequest(reviewCaseId: string, decision: string, decisionMessagePublic: string,
                                         decisionReasons: ReasonsField, moderatorNoteInternal: string)

  /** The message and reasons of a request that passed validation. */
  datatype ValidDecision = ValidDecision(message: string, reasons: seq<string>)

  const MaxMessageLength: nat := 280
  const MaxReasons: nat := 3

  predicate IsDecision(d: string)
  {
    d == "approved" || d == "rejected"
  }

  function ReasonItems(f: ReasonsField): seq<string>
  {
    match f
    case ReasonsList(items) => items
    case _ => []
  }

  predicate ReasonsAcceptable(f: ReasonsField)
  {
    !f.ReasonsNotList? && |ReasonItems(f)| <= MaxReasons
  }

  /** The checks `moderatorDecide` makes on its body, in their order. */
  function ValidateDecision(req: DecideRequest): (r: Result<ValidDecision, Failure>)
    ensures r.Ok? <==>
      && req.reviewCaseId != "" && IsDecision(req.decision)
      && Trim(req.decisionMessagePublic) != "" && |Trim(req.decisionMessagePublic)| <= MaxMessageLength
      && ReasonsAcceptable(req.decisionReasons)
    ensures r.Ok? ==> r.value == ValidDecision(Trim(req.decisionMessagePublic), ReasonItems(req.decisionReasons))
    ensures r.Ok? ==> IsTrimmed(r.value.message) && 0 < |r.value.message| <= MaxMessageLength && |r.value.reasons| <= MaxReasons
    ensures r.Err? ==> r.error.status == 400
    ensures req.reviewCaseId == "" ==> r == Err(CaseIdRequired)
    ensures req.reviewCaseId != "" && !IsDecision(req.decision) ==> r == Err(InvalidDecision)
    ensures req.reviewCaseId != "" && IsDecision(req.decision) && Trim(req.decisionMessagePublic) == "" ==>
              r == Err(MessageRequired)
    ensures req.reviewCaseId != "" && IsDecision(req.decision) && Trim(req.decisionMessagePublic) != "" &&
            |Trim(req.decisionMessagePublic)| > MaxMessageLength ==>
              r == Err(MessageTooLong)
    ensures req.reviewCaseId != "" && IsDecision(req.decision) && Trim(req.decisionMessagePublic) != "" &&
            |Trim(req.decisionMessagePublic)| <= MaxMessageLength && !ReasonsAcceptable(req.decisionReasons) ==>
              r == Err(TooManyReasons)
  {
    var message := Trim(req.decisionMessagePublic);
    if req.reviewCaseId == "" then Err(CaseIdRequired)
    else if !IsDecision(req.decision) then Err(InvalidDecision)
    else if message == "" then Err(MessageRequired)
    else if |message| > MaxMessageLength then Err(MessageTooLong)
    else if !ReasonsAcceptable(req.decisionReasons) then Err(TooManyReasons)
    else Ok(ValidDecision(message, ReasonItems(req.decisionReasons)))
  }

  // ----- moderatorDecide: the transaction -----

  /** `uploadId`: the case's own upload, else its first linked upload. */
  function TargetUploadId(c: ReviewCase): (u: string)
    ensures c.uploadId != "" ==> u == c.uploadId
    ensures c.uploadId == "" ==> u == (if |c.linkedUploadIds| > 0 then c.linkedUploadIds[0] else "")
  {
    if c.uploadId != "" then c.uploadId
    else if |c.linkedUploadIds| > 0 then c.linkedUploadIds[0]
    else ""
  }

  /** The store admits a decision on `id` by `uid` at `now`. */
  predicate Decidable(db: Db, id: string, uid: string, now: int)
  {
    && id in db.reviewCases
    && db.reviewCases[id].status == "inReview"
    && !BlocksDecision(db.reviewCases[id].lock, uid, now)
    && TargetUploadId(db.reviewCases[id]) != "" && db.reviewCases[id].userId != ""
    && TargetUploadId(db.reviewCases[id]) in db.uploads
  }

  /** `{reviewCaseId, uploadId, userId, reviewCase}`; the case as read. */
  datatype DecideReply = DecideReply(reviewCaseId: string, uploadId: string, userId: string, reviewCase: ReviewCase)

  /** The upload after the decision. */
  function DecidedUpload(u: Upload, id: string, decision: string, valid: ValidDecision, now: int): Upload
  {
    var approved := decision == "approved";
    u.(reviewStatus := decision, reviewDecisionMessagePublic := valid.message,
       reviewDecisionReasons := valid.reasons,
       publicationStatus := if approved then "pending" else "blocked",
       approvedAt := if approved then Some(now) else None, reviewCaseId := id)
  }

  /** The case after the decision, its claim removed. */
  function DecidedCase(c: ReviewCase, caller: Caller, req: DecideRequest, valid: ValidDecision): ReviewCase
  {
    c.(status := req.decision, decisionMessagePublic := valid.message, decisionReasons := valid.reasons,
       moderatorNoteInternal := req.moderatorNoteInternal, decidedByUid := caller.uid,
       decidedByEmail := caller.email, uploadId := TargetUploadId(c), lock := None)
  }

  /** The moderation message the maker receives. */
  function DecisionNotice(req: DecideRequest, valid: ValidDecision, uploadId: string): StoredMessage
  {
    StoredMessage(CreateDecisionMessage(req.decision, valid.message, valid.reasons), uploadId, req.reviewCaseId)
  }

  /** Everything a successful decision writes, and nothing else. */
  predicate DecisionRecorded(db: Db, db': Db, caller: Caller, req: DecideRequest, valid: ValidDecision,
                             now: int, messageId: string)
    requires Decidable(db, req.reviewCaseId, caller.uid, now)
  {
    var id := req.reviewCaseId;
    var c := db.reviewCases[id];
    var uploadId := TargetUploadId(c);
    && db'.reviewCases == db.reviewCases[id := DecidedCase(c, caller, req, valid)]
    && db'.uploads == db.uploads[uploadId := DecidedUpload(db.uploads[uploadId], id, req.decision, valid, now)]
    && db'.threads == db.threads[c.userId := Thread(ModerationThreadTitle, true)]
    && db'.messages == db.messages[(c.userId, messageId) := DecisionNotice(req, valid, uploadId)]
    && db'.userModeration == db.userModeration
    && db'.drafts == db.drafts
  }

  /** `moderatorDecide`: authorisation, validation, then the transaction on
      the case and its upload, then the maker's moderation thread and message.
      `messageId` is the id the new message document gets. */
  function DecideTransaction(db: Db, caller: Caller, req: DecideRequest, now: int, messageId: string)
    : (r: (Result<DecideReply, Failure>, Db))
    ensures r.0.Err? ==> r.1 == db
    ensures !caller.isModerator ==> r.0 == Err(NotModerator)
    ensures caller.isModerator && ValidateDecision(req).Err? ==> r.0 == Err(ValidateDecision(req).error)
    ensures caller.isModerator && ValidateDecision(req).Ok? && req.reviewCaseId !in db.reviewCases ==>
              r.0 == Err(CaseNotFound)
    ensures caller.isModerator && ValidateDecision(req).Ok? && req.reviewCaseId in db.reviewCases ==>
              var c := db.reviewCases[req.reviewCaseId];
              && (c.status != "inReview" ==> r.0 == Err(AlreadyDecided))
              && (c.status == "inReview" && BlocksDecision(c.lock, caller.uid, now) ==> r.0 == Err(LockedByAnother))
              && (c.status == "inReview" && !BlocksDecision(c.lock, caller.uid, now) ==>
                    && (TargetUploadId(c) == "" || c.userId == "" ==> r.0 == Err(MissingTarget))
                    && (TargetUploadId(c) != "" && c.userId != "" && TargetUploadId(c) !in db.uploads ==>
                          r.0 == Err(UploadMissing)))
    ensures r.0.Ok? <==> caller.isModerator && ValidateDecision(req).Ok? && Decidable(db, req.reviewCaseId, caller.uid, now)
    ensures r.0.Ok? ==>
              var c := db.reviewCases[req.reviewCaseId];
              && r.0.value == DecideReply(req.reviewCaseId, TargetUploadId(c), c.userId, c)
              && DecisionRecorded(db, r.1, caller, req, ValidateDecision(req).value, now, messageId)
  {
    if !caller.isModerator then (Err(NotModerator), db)
    else
      match ValidateDecision(req)
      case Err(f) => (Err(f), db)
      case Ok(valid) =>
        var id := req.reviewCaseId;
        if id !in db.reviewCases then (Err(CaseNotFound), db)
        else
          var c := db.reviewCases[id];
          var uploadId := TargetUploadId(c);
          if c.status != "inReview" then (Err(AlreadyDecided), db)
          else if BlocksDecision(c.lock, caller.uid, now) then (Err(LockedByAnother), db)
          else if uploadId == "" || c.userId == "" then (Err(MissingTarget), db)
          else if uploadId !in db.uploads then (Err(UploadMissing), db)
          else
            var db' := Db(db.uploads[uploadId := DecidedUpload(db.uploads[uploadId], id, req.decision, valid, now)],
                          db.reviewCases[id := DecidedCase(c, caller, req, valid)],
                          db.userModeration,
                          db.threads[c.userId := Thread(ModerationThreadTitle, true)],
                          db.messages[(c.userId, messageId) := DecisionNotice(req, valid, uploadId)],
                          db.drafts);
            (Ok(DecideReply(id, uploadId, c.userId, c)), db')
  }

  // ----- userModerationAction -----

  /** The signed-in maker: the token's uid, and whether the token is a password
      account whose email is not verified (`requireVerifiedPasswordUser`). */
  datatype UserAuth = UserAuth(uid: string, unverifiedPassword: bool)

  datatype ActionRequest = ActionRequest(messageId: string, uploadId: string, action: string)

  const EmailNotVerified := Failure(403, "Email not verified")
  const ActionFieldsRequired := Failure(400, "messageId, uploadId and action are required")
  const InvalidAction := Failure(400, "Invalid action")
  const ActionTargetNotFound := Failure(404, "Message or upload not found")
  const NotAuthorizedForAction := Failure(403, "Not authorized for this action")
  const NotApproved := Failure(409, "Upload is not approved")

  predicate IsAction(a: string)
  {
    a == "publishNow" || a == "saveDraft" || a == "dismiss"
  }

  /** The request names an existing message of the maker about an existing
      upload of the maker. */
  predicate ActionTargetValid(db: Db, auth: UserAuth, req: ActionRequest)
  {
    && (auth.uid, req.messageId) in db.messages && req.uploadId in db.uploads
    && db.messages[(auth.uid, req.messageId)].uploadId == req.uploadId
    && db.uploads[req.uploadId].userId == auth.uid
  }

  /** Every check of `userModerationAction` passes. */
  predicate ActionAllowed(db: Db, auth: UserAuth, req: ActionRequest)
  {
    && !auth.unverifiedPassword
    && req.messageId != "" && req.uploadId != "" && req.action != ""
    && IsAction(req.action)
    && ActionTargetValid(db, auth, req)
    && (req.action != "dismiss" ==> db.uploads[req.uploadId].reviewStatus == "approved")
  }

  /** The message marked read, and resolved when `resolve`. */
  function MarkMessage(m: StoredMessage, resolve: bool): StoredMessage
  {
    m.(content := m.content.(unread := false, resolved := resolve || m.content.resolved))
  }

  /** The draft `saveDraft` writes from an upload. */
  function DraftOf(uploadId: string, u: Upload): Draft
  {
    Draft(uploadId, u.storagePath, u.imageRef, u.caption, u.tags, "draft")
  }

  /** The merge-set of `updatedAt` on the moderation thread: a missing
      thread is created without a title. */
  function TouchThread(threads: map<string, Thread>, uid: string): (r: map<string, Thread>)
    ensures r.Keys == threads.Keys + {uid}
    ensures forall k :: k in threads ==> r[k] == threads[k]
    ensures uid !in threads ==> r[uid] == Thread("", false)
  {
    if uid in threads then threads else threads[uid := Thread("", false)]
  }

  /** `userModerationAction`: the maker publishes an approved upload, keeps
      it as a draft, or dismisses the message. `draftId` is the id the new
      draft document gets. */
  function ActionTransaction(db: Db, auth: UserAuth, req: ActionRequest, draftId: string): (r: (Result<(), Failure>, Db))
    ensures r.0.Err? ==> r.1 == db
    ensures r.0.Ok? <==> ActionAllowed(db, auth, req)
    ensures auth.unverifiedPassword ==> r.0 == Err(EmailNotVerified)
    ensures !auth.unverifiedPassword && (req.messageId == "" || req.uploadId == "" || req.action == "") ==>
              r.0 == Err(ActionFieldsRequired)
    ensures !auth.unverifiedPassword && req.messageId != "" && req.uploadId != "" && req.action != "" &&
            !IsAction(req.action) ==>
              r.0 == Err(InvalidAction)
    ensures !auth.unverifiedPassword && req.messageId != "" && req.uploadId != "" && IsAction(req.action) &&
            ((auth.uid, req.messageId) !in db.messages || req.uploadId !in db.uploads) ==>
              r.0 == Err(ActionTargetNotFound)
    ensures !auth.unverifiedPassword && req.messageId != "" && req.uploadId != "" && IsAction(req.action) &&
            (auth.uid, req.messageId) in db.messages && req.uploadId in db.uploads && !ActionTargetValid(db, auth, req) ==>
              r.0 == Err(NotAuthorizedForAction)
    ensures !auth.unverifiedPassword && req.messageId != "" && req.uploadId != "" && IsAction(req.action) &&
            ActionTargetValid(db, auth, req) && req.action != "dismiss" &&
            db.uploads[req.uploadId].reviewStatus != "approved" ==>
              r.0 == Err(NotApproved)
    ensures r.0.Err? && r.0.error.status == 409 ==>
              req.action != "dismiss" && req.uploadId in db.uploads &&
              db.uploads[req.uploadId].reviewStatus != "approved"
    ensures r.1.reviewCases == db.reviewCases && r.1.userModeration == db.userModeration
    ensures r.0.Ok? ==>
              var key := (auth.uid, req.messageId);
              var u := db.uploads[req.uploadId];
              && r.1.threads == TouchThread(db.threads, auth.uid)
              && (req.action == "publishNow" ==>
                    && r.1.uploads == db.uploads[req.uploadId := u.(publicationStatus := "published")]
                    && r.1.messages == db.messages[key := MarkMessage(db.messages[key], true)]
                    && r.1.drafts == db.drafts)
              && (req.action == "saveDraft" ==>
                    && r.1.uploads == db.uploads[req.uploadId := u.(publicationStatus := "draft")]
                    && r.1.messages == db.messages[key := MarkMessage(db.messages[key], true)]
                    && r.1.drafts == db.drafts[(auth.uid, draftId) := DraftOf(req.uploadId, u)])
              && (req.action == "dismiss" ==>
                    && r.1.uploads == db.uploads
                    && r.1.messages == db.messages[key := MarkMessage(db.messages[key], false)]
                    && r.1.drafts == db.drafts)
  {
    if auth.unverifiedPassword then (Err(EmailNotVerified), db)
    else if req.messageId == "" || req.uploadId == "" || req.action == "" then (Err(ActionFieldsRequired), db)
    else if !IsAction(req.action) then (Err(InvalidAction), db)
    else
      var key := (auth.uid, req.messageId);
      if key !in db.messages || req.uploadId !in db.uploads then (Err(ActionTargetNotFound), db)
      else
        var m := db.messages[key];
        var u := db.uploads[req.uploadId];
        if m.uploadId != req.uploadId || u.userId != auth.uid then (Err(NotAuthorizedForAction), db)
        else if req.action != "dismiss" && u.reviewStatus != "approved" then (Err(NotApproved), db)
        else
          var db1 :=
            if req.action == "publishNow" then
              db.(uploads := db.uploads[req.uploadId := u.(publicationStatus := "published")],
                  messages := db.messages[key := MarkMessage(m, true)])
            else if req.action == "saveDraft" then
              db.(uploads := db.uploads[req.uploadId := u.(publicationStatus := "draft")],
                  messages := db.messages[key := MarkMessage(m, true)],
                  drafts := db.drafts[(auth.uid, draftId) := DraftOf(req.uploadId, u)])
            else
              db.(messages := db.messages[key := MarkMessage(m, false)]);
          (Ok(()), db1.(threads := TouchThread(db.threads, auth.uid)))
  }

  // ----- Properties across requests -----

  /** Once decided, a case can be neither decided again nor claimed. */
  lemma DecisionIsFinal(db: Db, caller: Caller, req: DecideRequest, now: int, messageId: string,
                        caller2: Caller, req2: DecideRequest, now2: int, messageId2: string)
    requires DecideTransaction(db, caller, req, now, messageId).0.Ok?
    requires caller2.isModerator && ValidateDecision(req2).Ok? && req2.reviewCaseId == req.reviewCaseId
    ensures var db' := DecideTransaction(db, caller, req, now, messageId).1;
      && DecideTransaction(db', caller2, req2, now2, messageId2) == (Err(AlreadyDecided), db')
      && ClaimTransaction(db', caller2, req.reviewCaseId, now2) == (Err(NotInReview), db')
  {
    var db' := DecideTransaction(db, caller, req, now, messageId).1;
    assert db'.reviewCases[req.reviewCaseId].status == req.decision;
  }

  /** A live claim of one moderator keeps every other moderator from
      deciding the case, and a second claim is refused with the holder's email. */
  lemma ClaimExcludesOthers(db: Db, a: Caller, b: Caller, id: string, now: int, now2: int,
                            req: DecideRequest, messageId: string)
    requires ClaimTransaction(db, a, id, now).0 == Ok(ClaimReply(true, a.email))
    requires a.uid != "" && b.uid != a.uid && b.isModerator
    requires now2 < now + LockDurationMs
    requires ValidateDecision(req).Ok? && req.reviewCaseId == id
    ensures var db' := ClaimTransaction(db, a, id, now).1;
      && DecideTransaction(db', b, req, now2, messageId) == (Err(LockedByAnother), db')
      && ClaimTransaction(db', b, id, now2) == (Ok(ClaimReply(false, a.email)), db')
  {
  }

  /** The holder of a claim can decide the case while the claim is live. */
  lemma HolderMayDecide(db: Db, a: Caller, id: string, now: int, now2: int)
    requires ClaimTransaction(db, a, id, now).0 == Ok(ClaimReply(true, a.email))
    requires TargetUploadId(db.reviewCases[id]) != "" && TargetUploadId(db.reviewCases[id]) in db.uploads
    requires db.reviewCases[id].userId != ""
    ensures Decidable(ClaimTransaction(db, a, id, now).1, id, a.uid, now2)
  {
  }

  /** A claim can be taken by anyone once it has expired. */
  lemma ExpiredClaimIsFree(db: Db, b: Caller, id: string, now: int)
    requires b.isModerator && id != "" && id in db.reviewCases && db.reviewCases[id].status == "inReview"
    requires db.reviewCases[id].lock.Some? && db.reviewCases[id].lock.value.expiresAt <= now
    ensures ClaimTransaction(db, b, id, now).0 == Ok(ClaimReply(true, b.email))
  {
  }

  /** After the holder releases the claim, another moderator can claim the case. */
  lemma ReleaseThenClaim(db: Db, a: Caller, b: Caller, id: string, now: int, now2: int)
    requires ClaimTransaction(db, a, id, now).0 == Ok(ClaimReply(true, a.email))
    requires b.isModerator
    ensures var db1 := ClaimTransaction(db, a, id, now).1;
      var db2 := ReleaseTransaction(db1, a, id).1;
      && db2.reviewCases[id].lock.None?
      && ClaimTransaction(db2, b, id, now2).0 == Ok(ClaimReply(true, b.email))
  {
    var db1 := ClaimTransaction(db, a, id, now).1;
    assert HeldBy(db1.reviewCases[id].lock, a.uid);
  }

  /** A moderator cannot release someone else's claim. */
  lemma ReleaseKeepsOthersClaim(db: Db, b: Caller, id: string)
    requires id in db.reviewCases && db.reviewCases[id].lock.Some?
    requires db.reviewCases[id].lock.value.claimedByUid != b.uid
    ensures ReleaseTransaction(db, b, id).1 == db
  {
  }

  /** An approval lets the maker publish the upload from the decision message. */
  lemma ApprovalEnablesPublishing(db: Db, caller: Caller, req: DecideRequest, now: int, messageId: string, draftId: string)
    requires DecideTransaction(db, caller, req, now, messageId).0.Ok? && req.decision == "approved" && messageId != ""
    requires var c := db.reviewCases[req.reviewCaseId]; db.uploads[TargetUploadId(c)].userId == c.userId
    ensures var c := db.reviewCases[req.reviewCaseId];
      var db1 := DecideTransaction(db, caller, req, now, messageId).1;
      var act := ActionTransaction(db1, UserAuth(c.userId, false), ActionRequest(messageId, TargetUploadId(c), "publishNow"), draftId);
      && db1.uploads[TargetUploadId(c)].publicationStatus == "pending"
      && act.0.Ok?
      && act.1.uploads[TargetUploadId(c)].publicationStatus == "published"
      && act.1.messages[(c.userId, messageId)].content.resolved
  {
  }

  /** A rejection leaves the maker only the dismissal. */
  lemma RejectionBlocksPublishing(db: Db, caller: Caller, req: DecideRequest, now: int, messageId: string,
                                  auth: UserAuth, act: ActionRequest, draftId: string)
    requires DecideTransaction(db, caller, req, now, messageId).0.Ok? && req.decision == "rejected"
    requires act.uploadId == TargetUploadId(db.reviewCases[req.reviewCaseId]) && act.action != "dismiss"
    ensures var db1 := DecideTransaction(db, caller, req, now, messageId).1;
      && db1.uploads[act.uploadId].publicationStatus == "blocked"
      && ActionTransaction(db1, auth, act, draftId).0.Err?
  {
  }

  // ----- The `resolved` status -----

  /** No review case carries the status `resolved`, which the cooldown for
      false appeals looks for. */
  predicate NoResolvedCases(db: Db)
  {
    forall id :: id in db.reviewCases ==> db.reviewCases[id].status != "resolved"
  }

  /** No endpoint of this module ever writes the status `resolved`. */
  lemma TransactionsKeepNoResolved(db: Db, caller: Caller, id: string, now: int, req: DecideRequest,
                                   messageId: string, auth: UserAuth, act: ActionRequest, draftId: string)
    requires NoResolvedCases(db)
    ensures NoResolvedCases(ClaimTransaction(db, caller, id, now).1)
    ensures NoResolvedCases(ReleaseTransaction(db, caller, id).1)
    ensures NoResolvedCases(DecideTransaction(db, caller, req, now, messageId).1)
    ensures NoResolvedCases(ActionTransaction(db, auth, act, draftId).1)
  {
    ClaimKeepsNoResolved(db, caller, id, now);
    ReleaseKeepsNoResolved(db, caller, id);
    DecideKeepsNoResolved(db, caller, req, now, messageId);
    ActionKeepsNoResolved(db, auth, act, draftId);
  }

  lemma ClaimKeepsNoResolved(db: Db, caller: Caller, id: string, now: int)
    requires NoResolvedCases(db)
    ensures NoResolvedCases(ClaimTransaction(db, caller, id, now).1)
  {
  }

  lemma ReleaseKeepsNoResolved(db: Db, caller: Caller, id: string)
    requires NoResolvedCases(db)
    ensures NoResolvedCases(ReleaseTransaction(db, caller, id).1)
  {
  }

  lemma DecideKeepsNoResolved(db: Db, caller: Caller, req: DecideRequest, now: int, messageId: string)
    requires NoResolvedCases(db)
    ensures NoResolvedCases(DecideTransaction(db, caller, req, now, messageId).1)
  {
  }

  lemma ActionKeepsNoResolved(db: Db, auth: UserAuth, act: ActionRequest, draftId: string)
    requires NoResolvedCases(db)
    ensures NoResolvedCases(ActionTransaction(db, auth, act, draftId).1)
  {
  }
}
