/** The Cloud Functions backend over a Firestore store whose collections are
    fields updated in place. Each endpoint is a method whose answer and new
    store are those its transaction function describes. */
module Backend {
  import opened Basics
  import opened Strings
  import opened Fingerprints
  import opened Duplicates
  import opened Classification
  import opened MakerTags
  import opened Requests
  import opened Documents
  import opened Review
  import opened Moderation

  class Store {
    var uploads: map<string, Upload>
    var reviewCases: map<string, ReviewCase>
    var userModeration: map<string, UserModeration>
    var threads: map<string, Thread>
    var messages: map<(string, string), StoredMessage>
    var drafts: map<(string, string), Draft>

    /** The store as a value. */
    function State(): Db
      reads this
    {
      Db(uploads, reviewCases, userModeration, threads, messages, drafts)
    }

    constructor (db: Db)
      ensures State() == db
    {
      uploads := db.uploads;
      reviewCases := db.reviewCases;
      userModeration := db.userModeration;
      threads := db.threads;
      messages := db.messages;
      drafts := db.drafts;
    }

    /** `moderatorClaim`. */
    method Claim(caller: Caller, id: string, now: int) returns (r: Result<ClaimReply, Failure>)
      modifies this
      ensures (r, State()) == ClaimTransaction(old(State()), caller, id, now)
    {
      if !caller.isModerator {
        return Err(NotModerator);
      }
      if id == "" {
        return Err(CaseIdRequired);
      }
      if id !in reviewCases {
        return Err(CaseNotFound);
      }
      var c := reviewCases[id];
      if c.status != "inReview" {
        return Err(NotInReview);
      }
      if HeldByOther(c.lock, caller.uid, now) {
        return Ok(ClaimReply(false, c.lock.value.claimedByEmail));
      }
      reviewCases := reviewCases[id := c.(lock := Some(ClaimLock(caller, now)))];
      r := Ok(ClaimReply(true, caller.email));
    }

    /** `moderatorRelease`. */
    method Release(caller: Caller, id: string) returns (r: Result<(), Failure>)
      modifies this
      ensures (r, State()) == ReleaseTransaction(old(State()), caller, id)
    {
      if !caller.isModerator {
        return Err(NotModerator);
      }
      if id == "" {
        return Err(CaseIdRequired);
      }
      if id in reviewCases && HeldBy(reviewCases[id].lock, caller.uid) {
        reviewCases := reviewCases[id := reviewCases[id].(lock := None)];
      }
      r := Ok(());
    }

    /** `moderatorDecide`; `messageId` is the id of the new message document. */
    method Decide(caller: Caller, req: DecideRequest, now: int, messageId: string) returns (r: Result<DecideReply, Failure>)
      modifies this
      ensures (r, State()) == DecideTransaction(old(State()), caller, req, now, messageId)
    {
      if !caller.isModerator {
        return Err(NotModerator);
      }
      if req.reviewCaseId == "" {
        return Err(CaseIdRequired);
      }
      if !IsDecision(req.decision) {
        return Err(InvalidDecision);
      }
      var message := Trim(req.decisionMessagePublic);
      if message == "" {
        return Err(MessageRequired);
      }
      if |message| > MaxMessageLength {
        return Err(MessageTooLong);
      }
      if !ReasonsAcceptable(req.decisionReasons) {
        return Err(TooManyReasons);
      }
      var valid := ValidDecision(message, ReasonItems(req.decisionReasons));
      var id := req.reviewCaseId;
      if id !in reviewCases {
        return Err(CaseNotFound);
      }
      var c := reviewCases[id];
      if c.status != "inReview" {
        return Err(AlreadyDecided);
      }
      if BlocksDecision(c.lock, caller.uid, now) {
        return Err(LockedByAnother);
      }
      var uploadId := TargetUploadId(c);
      if uploadId == "" || c.userId == "" {
        return Err(MissingTarget);
      }
      if uploadId !in uploads {
        return Err(UploadMissing);
      }
      uploads := uploads[uploadId := DecidedUpload(uploads[uploadId], id, req.decision, valid, now)];
      reviewCases := reviewCases[id := DecidedCase(c, caller, req, valid)];
      threads := threads[c.userId := Thread(ModerationThreadTitle, true)];
      messages := messages[(c.userId, messageId) := DecisionNotice(req, valid, uploadId)];
      r := Ok(DecideReply(id, uploadId, c.userId, c));
    }

    /** `userModerationAction`; `draftId` is the id of a new draft document. */
    method Act(auth: UserAuth, req: ActionRequest, draftId: string) returns (r: Result<(), Failure>)
      modifies this
      ensures (r, State()) == ActionTransaction(old(State()), auth, req, draftId)
    {
      if auth.unverifiedPassword {
        return Err(EmailNotVerified);
      }
      if req.messageId == "" || req.uploadId == "" || req.action == "" {
        return Err(ActionFieldsRequired);
      }
      if !IsAction(req.action) {
        return Err(InvalidAction);
      }
      var key := (auth.uid, req.messageId);
      if key !in messages || req.uploadId !in uploads {
        return Err(ActionTargetNotFound);
      }
      var m := messages[key];
      var u := uploads[req.uploadId];
      if m.uploadId != req.uploadId || u.userId != auth.uid {
        return Err(NotAuthorizedForAction);
      }
      if req.action == "publishNow" && u.reviewStatus != "approved" {
        return Err(NotApproved);
      }
      if req.action == "saveDraft" && u.reviewStatus != "approved" {
        return Err(NotApproved);
      }
      if req.action == "publishNow" {
        uploads := uploads[req.uploadId := u.(publicationStatus := "published")];
        messages := messages[key := MarkMessage(m, true)];
      }
      if req.action == "saveDraft" {
        drafts := drafts[(auth.uid, draftId) := DraftOf(req.uploadId, u)];
        uploads := uploads[req.uploadId := u.(publicationStatus := "draft")];
        messages := messages[key := MarkMessage(m, true)];
      }
      if req.action == "dismiss" {
        messages := messages[key := MarkMessage(m, false)];
      }
      threads := TouchThread(threads, auth.uid);
      r := Ok(());
    }

    // ----- moderateImage -----

    /** `findExactUpload`, then `findNearDuplicateUpload` when there is no
        exact hit; `order` is the store order of the uploads. */
    method LookupUpload(fp: Fingerprint, order: seq<string>, threshold: int) returns (matched: string)
      requires Enumerates(order, uploads)
      ensures MatchFound(uploads, order, fp, threshold, matched)
    {
      var exact := FindExact(fp.sha256, HashListing(order, uploads));
      if exact.Some? {
        return order[exact.value];
      }
      var bucket := PrefixBucket(order, uploads, fp.dhashPrefix);
      var best := FindNearDuplicate(fp.dhash, Candidates(bucket, uploads), threshold);
      if best.None? {
        return "";
      }
      matched := bucket[best.value.index];
    }

    /** `getUserModeration`: the user's document, written with the initial
        values when missing. */
    method GetUserModeration(userId: string) returns (um: UserModeration)
      modifies this
      ensures um == UserModerationOf(old(userModeration), userId)
      ensures userModeration == old(userModeration)[userId := um]
      ensures uploads == old(uploads) && reviewCases == old(reviewCases) && threads == old(threads)
      ensures messages == old(messages) && drafts == old(drafts)
    {
      if userId !in userModeration {
        userModeration := userModeration[userId := InitialUserModeration];
      }
      um := userModeration[userId];
    }

    /** The admission check of `moderateImage`. It answers the review state
        and the user's moderation document as read. */
    method AdmitReview(userId: string, outcome: Outcome, cachedCaseId: string, caseOrder: seq<string>,
                       fp: Fingerprint, newCaseId: string, now: int) returns (a: Admission, um: UserModeration)
      requires Enumerates(caseOrder, reviewCases) && newCaseId !in reviewCases
      modifies this
      ensures um == UserModerationOf(old(userModeration), userId)
      ensures a == Admit(userId, outcome, cachedCaseId, um, FirstOpenCase(caseOrder, old(reviewCases), userId), newCaseId, now)
      ensures State() == AdmittedState(old(State()), userId, outcome, a, newCaseId, fp)
    {
      var reviewCaseId := cachedCaseId;
      var openCase: Option<string> := None;
      var inCooldown := false;
      var created := false;
      um := UserModerationOf(userModeration, userId);
      if userId != "" && outcome == Forbidden {
        um := GetUserModeration(userId);
        if um.cooldownUntil.Some? && um.cooldownUntil.value > now {
          inCooldown := true;
        }
        openCase := FirstOpenCase(caseOrder, reviewCases, userId);
        if openCase.Some? {
          reviewCaseId := openCase.value;
        }
        if reviewCaseId == "" && openCase.None? && !inCooldown {
          if um.reviewRightsLevel > 0 && um.openReviewCount < 1 {
            reviewCases := reviewCases[newCaseId := NewCase(userId, fp)];
            reviewCaseId := newCaseId;
            created := true;
            userModeration := userModeration[userId := um.(openReviewCount := 1)];
          }
        }
        assert userModeration == old(userModeration)[userId := if created then um.(openReviewCount := 1) else um];
        assert reviewCases == if created then old(reviewCases)[newCaseId := NewCase(userId, fp)] else old(reviewCases);
      }
      a := Admission(reviewCaseId, openCase, inCooldown, created);
    }

    /** The cooldown update for an upload of a case rejected before. */
    method RecordFalseAppeal(cfg: Config, now: int, userId: string, outcome: Outcome, a: Admission, um: UserModeration)
      modifies this
      ensures State() == AppealedState(old(State()), cfg, now, userId, outcome, a, um)
    {
      if a.reviewCaseId != "" && userId != "" && a.openCase.None? && a.reviewCaseId in reviewCases {
        var c := reviewCases[a.reviewCaseId];
        if c.status == "resolved" && c.decision == "rejected" && Checked(userId, outcome) && userId in userModeration {
          var count := um.falseAppealCount + 1;
          var until := if count >= cfg.falseAppealThreshold then Some(now + cfg.cooldownDays * DayMs) else um.cooldownUntil;
          userModeration := userModeration[userId := userModeration[userId].(falseAppealCount := count, cooldownUntil := until)];
        }
      }
    }

    /** The verdict of `moderateImage`: the matched upload's, with this
        request's maker tags merged in, or a fresh classification. */
    method ClassifyUpload(req: ModerationRequest, matched: string, signals: Signals)
      returns (fin: (Outcome, Verdict), cached: Option<CachedResult>)
      ensures cached == CachedOf(uploads, matched)
      ensures fin == Decision(State(), req, matched, signals)
    {
      cached := CachedOf(uploads, matched);
      var tags := NormalizeMakerTags(req.makerTags);
      var incoming := Verdict(MakerRecords(tags), [], []);
      if cached.None? {
        var applied, suggested, reasons := ClassifyFresh(tags, signals.safeSearch, signals.labels, signals.gemini);
        incoming := Verdict(applied, suggested, reasons);
      }
      fin := FinalVerdict(cached, tags, incoming);
    }

    /** The writes of `moderateImage` once the verdict is known: admission,
        cooldown update, the new upload and its link to the case. */
    method RecordModeration(cfg: Config, now: int, userId: string, fin: (Outcome, Verdict), cachedCaseId: string,
                            caseOrder: seq<string>, fp: Fingerprint, matched: string,
                            newCaseId: string, newUploadId: string) returns (a: Admission)
      requires Enumerates(caseOrder, reviewCases) && newCaseId !in reviewCases && newUploadId !in uploads
      modifies this
      ensures a == Admit(userId, fin.0, cachedCaseId, UserModerationOf(old(userModeration), userId),
                         FirstOpenCase(caseOrder, old(reviewCases), userId), newCaseId, now)
      ensures State() == ModeratedStore(old(State()), cfg, now, userId, fin.0, fin.1, a, fp, matched, newCaseId, newUploadId)
    {
      var um;
      a, um := AdmitReview(userId, fin.0, cachedCaseId, caseOrder, fp, newCaseId, now);
      RecordFalseAppeal(cfg, now, userId, fin.0, a, um);
      uploads := uploads[newUploadId := StoredUpload(userId, fin.0, fin.1, a.reviewCaseId, fp, matched)];
      if a.reviewCaseId != "" {
        reviewCases := LinkUpload(reviewCases, a.reviewCaseId, newUploadId, fp);
      }
    }

    /** `moderateImage` for an image whose decoded bytes have digest `sha256`
        and resize to `grid`, which is `None` when the payload cannot be
        decoded as an image. `uploadOrder` and `caseOrder` list the two
        collections in store order; `newCaseId` and `newUploadId` are the
        fresh ids of the documents it may add. */
    method ModerateImage(cfg: Config, now: int, req: ModerationRequest, sha256: string, grid: Option<seq<byte>>,
                         signals: Signals, uploadOrder: seq<string>, caseOrder: seq<string>,
                         newCaseId: string, newUploadId: string) returns (r: Result<ModerationReply, Failure>)
      requires grid.Some? ==> |grid.value| == GridSize
      requires Enumerates(uploadOrder, uploads) && Enumerates(caseOrder, reviewCases)
      requires newCaseId !in reviewCases && newUploadId !in uploads
      modifies this
      ensures r.Ok? ==> newUploadId in uploads && grid.Some?
      ensures var matched := if r.Ok? then uploads[newUploadId].matchedUploadId else "";
        && (r.Ok? ==> MatchFound(old(uploads), uploadOrder, FingerprintOf(sha256, grid.value), cfg.dhashThreshold, matched))
        && (r, State()) == ModerateSpec(old(State()), cfg, now, req, sha256, grid, matched, signals, caseOrder,
                                        newCaseId, newUploadId)
    {
      var parsed := ParseImageDataUrl(req.image);
      if parsed.Err? {
        return Err(Failure(400, parsed.error));
      }
      if grid.None? {
        return Err(Failure(500, FingerprintError));
      }
      ghost var db0 := State();
      var fp := BuildFingerprint(sha256, grid.value);
      assert fp == FingerprintOf(sha256, grid.value);
      var matched := LookupUpload(fp, uploadOrder, cfg.dhashThreshold);
      var fin, cached := ClassifyUpload(req, matched, signals);
      var a := RecordModeration(cfg, now, req.userId, fin, CachedCaseId(cached), caseOrder, fp, matched, newCaseId, newUploadId);
      assert a == AdmissionOf(db0, req, matched, signals, caseOrder, newCaseId, now);
      ModeratedStoreFrame(db0, cfg, now, req.userId, fin.0, fin.1, a, fp, matched, newCaseId, newUploadId);
      r := Ok(Answer(fin, a, fp, cached.Some?, signals.labels));
    }
  }
}
