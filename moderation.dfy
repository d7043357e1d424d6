/** `moderateImage` after the image has been decoded: the lookup of an earlier
    upload of the same image, the verdict (reused or fresh), review admission
    for a forbidden upload, the cooldown after a rejected case, and the new
    upload document with its link to the review case. The store's query
    results are computed from the store itself, in the store's document
    order, which is an input. */
module Moderation {
  import opened Basics
  import opened Fingerprints
  import opened Duplicates
  import opened Classification
  import opened MakerTags
  import opened Requests
  import opened Documents
  import opened Review

  /** The environment settings, read once at start-up. */
  datatype Config = Config(dhashThreshold: int, falseAppealThreshold: int, cooldownDays: int)

  /** `DHASH_HAMMING_THRESHOLD`, `FALSE_APPEAL_THRESHOLD` and
      `REVIEW_COOLDOWN_DAYS` when unset. */
  const DefaultConfig := Config(8, 2, 7)

  const DayMs: int := 24 * 60 * 60 * 1000

  /** `.limit(25)` of the prefix query. */
  const PrefixQueryLimit: nat := 25

  // ----- Queries -----

  /** `order` lists the documents of a collection, each once, in the store's order. */
  predicate Enumerates<V>(order: seq<string>, m: map<string, V>)
  {
    && NoDuplicates(order)
    && (forall k :: k in m ==> k in order)
    && (forall i :: 0 <= i < |order| ==> order[i] in m)
  }

  /** The digests of the uploads in store order, as the exact query sees them. */
  function HashListing(order: seq<string>, uploads: map<string, Upload>): (r: seq<StoredHash>)
    requires forall i :: 0 <= i < |order| ==> order[i] in uploads
    ensures |r| == |order|
    ensures forall i :: 0 <= i < |order| ==> r[i] == StoredHash(order[i], uploads[order[i]].fingerprints.sha256)
  {
    seq(|order|, i requires 0 <= i < |order| => StoredHash(order[i], uploads[order[i]].fingerprints.sha256))
  }

  /** The uploads whose stored prefix is `prefix`, in store order. */
  function WithPrefix(order: seq<string>, uploads: map<string, Upload>, prefix: string): (r: seq<string>)
    requires forall i :: 0 <= i < |order| ==> order[i] in uploads
    ensures forall i :: 0 <= i < |r| ==> r[i] in order && uploads[r[i]].fingerprints.dhashPrefix == prefix
    ensures forall i :: 0 <= i < |order| && uploads[order[i]].fingerprints.dhashPrefix == prefix ==> order[i] in r
    ensures r == Filter(order, id => id in uploads && uploads[id].fingerprints.dhashPrefix == prefix)
  {
    if |order| == 0 then []
    else
      var rest := WithPrefix(order[1..], uploads, prefix);
      assert forall i :: 1 <= i < |order| ==> order[i] == order[1..][i - 1];
      if uploads[order[0]].fingerprints.dhashPrefix == prefix then [order[0]] + rest else rest
  }

  /** The prefix query: the first 25 uploads sharing the prefix, in store
      order, or all of them when there are fewer. */
  function PrefixBucket(order: seq<string>, uploads: map<string, Upload>, prefix: string): (r: seq<string>)
    requires forall i :: 0 <= i < |order| ==> order[i] in uploads
    ensures |r| <= PrefixQueryLimit
    ensures forall i :: 0 <= i < |r| ==> r[i] in uploads && uploads[r[i]].fingerprints.dhashPrefix == prefix
    ensures var matches := Filter(order, id => id in uploads && uploads[id].fingerprints.dhashPrefix == prefix);
      && |r| == (if |matches| <= PrefixQueryLimit then |matches| else PrefixQueryLimit)
      && r == matches[..|r|]
  {
    var all := WithPrefix(order, uploads, prefix);
    if |all| <= PrefixQueryLimit then all else all[..PrefixQueryLimit]
  }

  /** The bucket's documents with their stored perceptual hashes. */
  function Candidates(ids: seq<string>, uploads: map<string, Upload>): (r: seq<Candidate>)
    requires forall i :: 0 <= i < |ids| ==> ids[i] in uploads
    ensures |r| == |ids|
    ensures forall i :: 0 <= i < |ids| ==> r[i] == Candidate(ids[i], uploads[ids[i]].fingerprints.dhash)
  {
    seq(|ids|, i requires 0 <= i < |ids| => Candidate(ids[i], uploads[ids[i]].fingerprints.dhash))
  }

  /** `matched` is the upload the lookup finds ("" for none): the first upload
      with the same digest, else the closest upload of the prefix bucket
      within the threshold. */
  ghost predicate MatchFound(uploads: map<string, Upload>, order: seq<string>, fp: Fingerprint, threshold: int, matched: string)
    requires forall i :: 0 <= i < |order| ==> order[i] in uploads
  {
    var exact := FindExact(fp.sha256, HashListing(order, uploads));
    if exact.Some? then matched == order[exact.value]
    else
      var bucket := PrefixBucket(order, uploads, fp.dhashPrefix);
      var cands := Candidates(bucket, uploads);
      if fp.dhash == "" || NoneQualifies(fp.dhash, cands, threshold) then matched == ""
      else exists m :: IsBestMatch(fp.dhash, cands, threshold, m) && matched == bucket[m.index]
  }

  /** The lookup has one answer. */
  lemma MatchUnique(uploads: map<string, Upload>, order: seq<string>, fp: Fingerprint, threshold: int, m1: string, m2: string)
    requires forall i :: 0 <= i < |order| ==> order[i] in uploads
    requires MatchFound(uploads, order, fp, threshold, m1) && MatchFound(uploads, order, fp, threshold, m2)
    ensures m1 == m2
  {
    var exact := FindExact(fp.sha256, HashListing(order, uploads));
    if exact.None? {
      var bucket := PrefixBucket(order, uploads, fp.dhashPrefix);
      var cands := Candidates(bucket, uploads);
      if !(fp.dhash == "" || NoneQualifies(fp.dhash, cands, threshold)) {
        var a :| IsBestMatch(fp.dhash, cands, threshold, a) && m1 == bucket[a.index];
        var b :| IsBestMatch(fp.dhash, cands, threshold, b) && m2 == bucket[b.index];
        BestMatchUnique(fp.dhash, cands, threshold, a, b);
      }
    }
  }

  /** A match is an upload of the same image: identical digest, or a
      perceptual hash within the threshold and sharing the prefix. No match
      means no upload has the digest and no bucket upload is close enough. */
  lemma MatchIsDuplicate(uploads: map<string, Upload>, order: seq<string>, fp: Fingerprint, threshold: int, matched: string)
    requires Enumerates(order, uploads) && "" !in uploads
    requires MatchFound(uploads, order, fp, threshold, matched)
    ensures matched != "" ==> matched in uploads
    ensures matched != "" ==>
      var u := uploads[matched].fingerprints;
      u.sha256 == fp.sha256 ||
      (u.dhashPrefix == fp.dhashPrefix && DistanceOf(fp.dhash, u.dhash).AtMost(threshold))
    ensures matched == "" ==> forall id :: id in uploads ==> uploads[id].fingerprints.sha256 != fp.sha256
  {
    var listing := HashListing(order, uploads);
    var exact := FindExact(fp.sha256, listing);
    if exact.None? {
      forall id | id in uploads ensures uploads[id].fingerprints.sha256 != fp.sha256 {
        var i :| 0 <= i < |order| && order[i] == id;
        assert listing[i].sha256 == uploads[id].fingerprints.sha256;
      }
      var bucket := PrefixBucket(order, uploads, fp.dhashPrefix);
      var cands := Candidates(bucket, uploads);
      if matched != "" {
        var m :| IsBestMatch(fp.dhash, cands, threshold, m) && matched == bucket[m.index];
        assert cands[m.index].dhash == uploads[matched].fingerprints.dhash;
      }
    } else {
      assert order[exact.value] in uploads;
      assert listing[exact.value].sha256 == fp.sha256;
    }
  }

  /** `findOpenReviewCase`: the first case of the user that is in review. */
  function FirstOpenCase(order: seq<string>, cases: map<string, ReviewCase>, userId: string): (r: Option<string>)
    requires forall i :: 0 <= i < |order| ==> order[i] in cases
    ensures r.Some? ==> r.value in cases && cases[r.value].userId == userId && cases[r.value].status == "inReview"
    ensures r.None? <==> forall i :: 0 <= i < |order| ==> !(cases[order[i]].userId == userId && cases[order[i]].status == "inReview")
    ensures r.Some? ==> r.value in order && forall i :: 0 <= i < FirstIndex(order, r.value) ==>
      !(cases[order[i]].userId == userId && cases[order[i]].status == "inReview")
  {
    if |order| == 0 then None
    else if cases[order[0]].userId == userId && cases[order[0]].status == "inReview" then Some(order[0])
    else
      assert forall i :: 1 <= i < |order| ==> order[i] == order[1..][i - 1];
      FirstOpenCase(order[1..], cases, userId)
  }

  // ----- Admission -----

  /** `getUserModeration`: the stored document, or the initial one it writes. */
  function UserModerationOf(ums: map<string, UserModeration>, userId: string): UserModeration
  {
    if userId in ums then ums[userId] else InitialUserModeration
  }

  predicate InCooldown(um: UserModeration, now: int)
  {
    um.cooldownUntil.Some? && um.cooldownUntil.value > now
  }

  /** The admission check runs only for a forbidden upload whose request
      body names a `userId`; the id is not authenticated. */
  predicate Checked(userId: string, outcome: Outcome)
  {
    userId != "" && outcome == Forbidden
  }

  /** The review state `moderateImage` settles on: the case the upload belongs
      to, the user's open case, the cooldown and whether a case was opened. */
  datatype Admission = Admission(reviewCaseId: string, openCase: Option<string>, inCooldown: bool, created: bool)

  /** The admission check: an open case is adopted; a new case is opened only
      when there is none to adopt, the user is not in cooldown, keeps review
      rights and has no open review counted. */
  function Admit(userId: string, outcome: Outcome, cachedCaseId: string, um: UserModeration,
                 openCase: Option<string>, newCaseId: string, now: int): (a: Admission)
    ensures !Checked(userId, outcome) ==> a == Admission(cachedCaseId, None, false, false)
    ensures a.inCooldown <==> Checked(userId, outcome) && InCooldown(um, now)
    ensures a.created <==>
      && Checked(userId, outcome) && cachedCaseId == "" && openCase.None? && !InCooldown(um, now)
      && um.reviewRightsLevel > 0 && um.openReviewCount < 1
    ensures a.created ==> a.reviewCaseId == newCaseId
    ensures Checked(userId, outcome) ==> a.openCase == openCase
    ensures Checked(userId, outcome) && openCase.Some? ==> a.reviewCaseId == openCase.value
    ensures !a.created && openCase.None? ==> a.reviewCaseId == cachedCaseId
  {
    if !Checked(userId, outcome) then Admission(cachedCaseId, None, false, false)
    else
      var inCooldown := InCooldown(um, now);
      var caseId := if openCase.Some? then openCase.value else cachedCaseId;
      if caseId == "" && openCase.None? && !inCooldown && um.reviewRightsLevel > 0 && um.openReviewCount < 1 then
        Admission(newCaseId, openCase, inCooldown, true)
      else Admission(caseId, openCase, inCooldown, false)
  }

  /** `canRequestReview`. */
  predicate CanRequestReview(outcome: Outcome, a: Admission)
  {
    outcome == Forbidden && !a.inCooldown && a.openCase.None? && !a.created
  }

  /** A review can be requested exactly for a forbidden upload for which no
      case was opened or adopted and no cooldown runs. */
  lemma CanRequestReviewIff(userId: string, outcome: Outcome, cachedCaseId: string, um: UserModeration,
                            openCase: Option<string>, newCaseId: string, now: int)
    ensures var a := Admit(userId, outcome, cachedCaseId, um, openCase, newCaseId, now);
      CanRequestReview(outcome, a) <==>
        && outcome == Forbidden
        && (userId != "" ==> !InCooldown(um, now) && openCase.None? &&
                             (cachedCaseId != "" || um.reviewRightsLevel <= 0 || um.openReviewCount >= 1))
  {
  }

  /** A user with an open review counted gets no further case. */
  lemma AdmitOnceOpen(userId: string, outcome: Outcome, cachedCaseId: string, um: UserModeration,
                      openCase: Option<string>, newCaseId: string, now: int)
    requires um.openReviewCount >= 1
    ensures !Admit(userId, outcome, cachedCaseId, um, openCase, newCaseId, now).created
  {
  }

  /** The case `moderateImage` opens. */
  function NewCase(userId: string, fp: Fingerprint): ReviewCase
  {
    ReviewCase(userId, "inReview", "", [fp], [], "", None, "", [], "", "", "")
  }

  /** The store after the admission check: without the check nothing is
      written; with it the user's moderation document exists, no other user's
      document changes, and a new case is open with the review counted exactly
      when one was opened. */
  function AdmittedState(db: Db, userId: string, outcome: Outcome, a: Admission, newCaseId: string, fp: Fingerprint): (r: Db)
    ensures r.uploads == db.uploads && r.threads == db.threads && r.messages == db.messages && r.drafts == db.drafts
    ensures !Checked(userId, outcome) ==> r == db
    ensures Checked(userId, outcome) ==>
              r.reviewCases == (if a.created then db.reviewCases[newCaseId := NewCase(userId, fp)] else db.reviewCases)
    ensures Checked(userId, outcome) ==>
              && userId in r.userModeration
              && var um := UserModerationOf(db.userModeration, userId);
                 r.userModeration[userId] == (if a.created then um.(openReviewCount := 1) else um)
    ensures forall u :: u != userId ==>
              && (u in r.userModeration <==> u in db.userModeration)
              && (u in db.userModeration ==> r.userModeration[u] == db.userModeration[u])
  {
    if !Checked(userId, outcome) then db
    else
      var um := UserModerationOf(db.userModeration, userId);
      db.(userModeration := db.userModeration[userId := if a.created then um.(openReviewCount := 1) else um],
          reviewCases := if a.created then db.reviewCases[newCaseId := NewCase(userId, fp)] else db.reviewCases)
  }

  // ----- Cooldown after a rejected case -----

  /** The upload belongs to a case that was resolved with a rejection. */
  predicate FalseAppealApplies(db: Db, userId: string, outcome: Outcome, a: Admission)
  {
    && a.reviewCaseId != "" && userId != "" && a.openCase.None?
    && a.reviewCaseId in db.reviewCases
    && db.reviewCases[a.reviewCaseId].status == "resolved"
    && db.reviewCases[a.reviewCaseId].decision == "rejected"
    && Checked(userId, outcome)
  }

  /** The merge-set of a false appeal onto the stored document `stored`, from
      the snapshot `um` read by the admission check. */
  function FalseAppeal(stored: UserModeration, um: UserModeration, cfg: Config, now: int): (r: UserModeration)
    ensures r.falseAppealCount == um.falseAppealCount + 1
    ensures r.openReviewCount == stored.openReviewCount && r.reviewRightsLevel == stored.reviewRightsLevel
    ensures r.falseAppealCount >= cfg.falseAppealThreshold ==> r.cooldownUntil == Some(now + cfg.cooldownDays * DayMs)
    ensures r.falseAppealCount < cfg.falseAppealThreshold ==> r.cooldownUntil == um.cooldownUntil
  {
    var count := um.falseAppealCount + 1;
    stored.(falseAppealCount := count,
            cooldownUntil := if count >= cfg.falseAppealThreshold then Some(now + cfg.cooldownDays * DayMs)
                             else um.cooldownUntil)
  }

  /** With the default settings the second false appeal starts a cooldown of
      seven days, during which no case is opened and no review can be requested. */
  lemma SecondFalseAppealCoolsDown(stored: UserModeration, um: UserModeration, now: int, later: int,
                                   userId: string, cachedCaseId: string, openCase: Option<string>, newCaseId: string)
    requires um.falseAppealCount == 1
    requires now <= later < now + 7 * DayMs && userId != ""
    ensures var um' := FalseAppeal(stored, um, DefaultConfig, now);
      && um'.cooldownUntil == Some(now + 7 * DayMs)
      && InCooldown(um', later)
      && !Admit(userId, Forbidden, cachedCaseId, um', openCase, newCaseId, later).created
      && !CanRequestReview(Forbidden, Admit(userId, Forbidden, cachedCaseId, um', openCase, newCaseId, later))
  {
  }

  /** The store after the cooldown update: the user's stored document takes
      the false appeal exactly when the rejected-case branch applies, and
      nothing changes otherwise. */
  function AppealedState(db: Db, cfg: Config, now: int, userId: string, outcome: Outcome, a: Admission, um: UserModeration): (r: Db)
    ensures r.uploads == db.uploads && r.reviewCases == db.reviewCases
    ensures r.threads == db.threads && r.messages == db.messages && r.drafts == db.drafts
    ensures FalseAppealApplies(db, userId, outcome, a) && userId in db.userModeration ==>
              r.userModeration == db.userModeration[userId := FalseAppeal(db.userModeration[userId], um, cfg, now)]
    ensures !(FalseAppealApplies(db, userId, outcome, a) && userId in db.userModeration) ==> r == db
  {
    if FalseAppealApplies(db, userId, outcome, a) && userId in db.userModeration then
      db.(userModeration := db.userModeration[userId := FalseAppeal(db.userModeration[userId], um, cfg, now)])
    else db
  }

  /** No case is ever resolved here, so the cooldown update never runs. */
  lemma NoFalseAppealWithoutResolved(db: Db, userId: string, outcome: Outcome, a: Admission)
    requires NoResolvedCases(db)
    ensures !FalseAppealApplies(db, userId, outcome, a)
  {
  }

  // ----- The new upload and its link to the case -----

  /** `FieldValue.arrayUnion(x)` on one array. */
  function ArrayUnion<T(==)>(s: seq<T>, x: T): (r: seq<T>)
    ensures x in s ==> r == s
    ensures x !in s ==> r == s + [x]
    ensures x in r && |s| <= |r| && r[..|s|] == s
  {
    if x in s then s else s + [x]
  }

  /** A case document a merge-set creates from nothing. */
  const EmptyCase := ReviewCase("", "", "", [], [], "", None, "", [], "", "", "")

  /** The merge-set linking the new upload and its fingerprints to the case. */
  function LinkUpload(cases: map<string, ReviewCase>, id: string, uploadId: string, fp: Fingerprint): (r: map<string, ReviewCase>)
    ensures r.Keys == cases.Keys + {id}
    ensures forall k :: k in cases && k != id ==> r[k] == cases[k]
    ensures uploadId in r[id].linkedUploadIds && fp in r[id].fingerprints
  {
    var c := if id in cases then cases[id] else EmptyCase;
    cases[id := c.(linkedUploadIds := ArrayUnion(c.linkedUploadIds, uploadId),
                   fingerprints := ArrayUnion(c.fingerprints, fp))]
  }

  /** Linking keeps what the case already lists and everything but the two
      arrays, and linking the same upload again changes nothing. */
  lemma LinkUploadKeeps(cases: map<string, ReviewCase>, id: string, uploadId: string, fp: Fingerprint)
    requires id in cases
    ensures var c := cases[id]; var c' := LinkUpload(cases, id, uploadId, fp)[id];
      && c'.linkedUploadIds[..|c.linkedUploadIds|] == c.linkedUploadIds
      && c'.fingerprints[..|c.fingerprints|] == c.fingerprints
      && c' == c.(linkedUploadIds := c'.linkedUploadIds, fingerprints := c'.fingerprints)
    ensures LinkUpload(LinkUpload(cases, id, uploadId, fp), id, uploadId, fp) == LinkUpload(cases, id, uploadId, fp)
  {
  }

  /** The upload document `moderateImage` adds. */
  function StoredUpload(userId: string, outcome: Outcome, v: Verdict, caseId: string, fp: Fingerprint, matched: string): (u: Upload)
    ensures u.userId == userId && u.outcome == outcome && u.reviewCaseId == caseId
    ensures u.appliedTriggers == v.applied && u.suggestedTriggers == v.suggested && u.forbiddenReasons == v.reasons
    ensures u.fingerprints == fp && u.matchedUploadId == matched
    ensures u.reviewStatus == "" && u.publicationStatus == "" && u.approvedAt.None? && u.reviewDecisionReasons == []
  {
    Upload(userId, outcome, v.applied, v.suggested, v.reasons, caseId, fp, matched,
           "", "", [], "", None, "", "", "", [])
  }

  // ----- The whole request -----

  /** The body of a `moderateImage` request. */
  datatype ModerationRequest = ModerationRequest(image: ImageInput, makerTags: TagInput, userId: string)

  /** The classifier answers for the image (a failed call is `None` or no labels). */
  datatype Signals = Signals(safeSearch: Option<SafeSearchAnnotation>, labels: seq<Label>, gemini: Option<GeminiResult>)

  /** The 200 answer; `legacyLabels` and `isSensitive` form its `legacy` part. */
  datatype ModerationReply = ModerationReply(
    outcome: Outcome, applied: seq<TriggerRecord>, suggested: seq<TriggerRecord>, reasons: seq<ForbiddenReason>,
    showSuggestionUI: bool, canRequestReview: bool, reviewCaseId: string, fingerprints: Fingerprint,
    legacyLabels: seq<string>, isSensitive: bool)

  /** `labels.map((label) => label.description)`. */
  function Descriptions(labels: seq<Label>): (r: seq<string>)
    ensures |r| == |labels|
    ensures forall i :: 0 <= i < |labels| ==> r[i] == labels[i].description
  {
    seq(|labels|, i requires 0 <= i < |labels| => labels[i].description)
  }

  /** `labels.map((label) => label.description).filter(Boolean)`: the
      non-empty descriptions, in the order of the labels. */
  function LabelDescriptions(labels: seq<Label>): (r: seq<string>)
    ensures forall i :: 0 <= i < |r| ==> r[i] != ""
    ensures |r| <= |labels|
    ensures r == Filter(Descriptions(labels), d => d != "")
  {
    if |labels| == 0 then []
    else
      var rest := LabelDescriptions(labels[1..]);
      var ds := Descriptions(labels);
      assert ds[0] == labels[0].description && ds[1..] == Descriptions(labels[1..]);
      assert Filter(ds, d => d != "") ==
        (if ds[0] == "" then [] else [ds[0]]) + Filter(ds[1..], d => d != "");
      if labels[0].description == "" then rest else [labels[0].description] + rest
  }

  /** The fingerprints `buildFingerprint` computes for a digest and a grid. */
  function FingerprintOf(sha256: string, grid: seq<byte>): Fingerprint
    requires |grid| == GridSize
  {
    Fingerprint(sha256, Dhash(grid), Dhash(grid)[..DhashPrefixLength])
  }

  /** What a matched upload contributes. */
  function CachedOf(uploads: map<string, Upload>, matched: string): (r: Option<CachedResult>)
    ensures r.Some? <==> matched != "" && matched in uploads
  {
    if matched != "" && matched in uploads then
      var u := uploads[matched];
      Some(CachedResult(u.outcome, u.appliedTriggers, u.suggestedTriggers, u.forbiddenReasons, u.reviewCaseId))
    else None
  }

  function CachedCaseId(cached: Option<CachedResult>): string
  {
    if cached.Some? then cached.value.reviewCaseId else ""
  }

  /** The verdict before the reuse rule: only the maker's tags for a
      duplicate, whose classifiers are not called; the fresh verdict otherwise. */
  function IncomingVerdict(cached: Option<CachedResult>, tags: seq<string>, signals: Signals): (v: Verdict)
    ensures cached.Some? ==> v.applied == MakerRecords(tags) && v.suggested == [] && v.reasons == []
    ensures cached.None? ==> v == FreshVerdict(tags, signals.safeSearch, signals.labels, signals.gemini)
  {
    if cached.Some? then Verdict(MakerRecords(tags), [], [])
    else FreshVerdict(tags, signals.safeSearch, signals.labels, signals.gemini)
  }

  /** The outcome and lists of the answer. */
  function Decision(db: Db, req: ModerationRequest, matched: string, signals: Signals): (r: (Outcome, Verdict))
    ensures !(matched != "" && matched in db.uploads) ==>
      var v := FreshVerdict(NormalizeMakerTags(req.makerTags), signals.safeSearch, signals.labels, signals.gemini);
      r == (OutcomeOf(v), v)
  {
    var cached := CachedOf(db.uploads, matched);
    var tags := NormalizeMakerTags(req.makerTags);
    FinalVerdict(cached, tags, IncomingVerdict(cached, tags, signals))
  }

  /** The review state of the answer. */
  function AdmissionOf(db: Db, req: ModerationRequest, matched: string, signals: Signals,
                       caseOrder: seq<string>, newCaseId: string, now: int): (a: Admission)
    requires forall i :: 0 <= i < |caseOrder| ==> caseOrder[i] in db.reviewCases
    ensures !Checked(req.userId, Decision(db, req, matched, signals).0) ==> a.openCase.None? && !a.created && !a.inCooldown
    ensures Checked(req.userId, Decision(db, req, matched, signals).0) ==>
      a.openCase == FirstOpenCase(caseOrder, db.reviewCases, req.userId) &&
      (a.inCooldown <==> InCooldown(UserModerationOf(db.userModeration, req.userId), now))
    ensures a.created ==> a.reviewCaseId == newCaseId && a.openCase.None? && !a.inCooldown
  {
    Admit(req.userId, Decision(db, req, matched, signals).0, CachedCaseId(CachedOf(db.uploads, matched)),
          UserModerationOf(db.userModeration, req.userId), FirstOpenCase(caseOrder, db.reviewCases, req.userId),
          newCaseId, now)
  }

  /** The store after a moderation request: the admission writes, the
      cooldown update, the new upload and its link to the case. `um` is the
      user's moderation document as the admission check read it. */
  function ModeratedStore(db: Db, cfg: Config, now: int, userId: string, outcome: Outcome, v: Verdict,
                          a: Admission, fp: Fingerprint, matched: string, newCaseId: string, newUploadId: string): (r: Db)
    ensures r.threads == db.threads && r.messages == db.messages && r.drafts == db.drafts
    ensures r.uploads == db.uploads[newUploadId := StoredUpload(userId, outcome, v, a.reviewCaseId, fp, matched)]
  {
    var db1 := AdmittedState(db, userId, outcome, a, newCaseId, fp);
    var db2 := AppealedState(db1, cfg, now, userId, outcome, a, UserModerationOf(db.userModeration, userId));
    var db3 := db2.(uploads := db2.uploads[newUploadId := StoredUpload(userId, outcome, v, a.reviewCaseId, fp, matched)]);
    if a.reviewCaseId != "" then db3.(reviewCases := LinkUpload(db3.reviewCases, a.reviewCaseId, newUploadId, fp))
    else db3
  }

  /** The request adds its upload and touches no thread, message or draft. */
  lemma ModeratedStoreFrame(db: Db, cfg: Config, now: int, userId: string, outcome: Outcome, v: Verdict,
                            a: Admission, fp: Fingerprint, matched: string, newCaseId: string, newUploadId: string)
    ensures var r := ModeratedStore(db, cfg, now, userId, outcome, v, a, fp, matched, newCaseId, newUploadId);
      && r.uploads == db.uploads[newUploadId := StoredUpload(userId, outcome, v, a.reviewCaseId, fp, matched)]
      && r.threads == db.threads && r.messages == db.messages && r.drafts == db.drafts
      && (a.reviewCaseId != "" ==> a.reviewCaseId in r.reviewCases && newUploadId in r.reviewCases[a.reviewCaseId].linkedUploadIds)
  {
  }

  /** The open-review count of a user never goes down. */
  lemma OpenReviewCountNeverDecreases(db: Db, cfg: Config, now: int, userId: string, outcome: Outcome, v: Verdict,
                                      a: Admission, fp: Fingerprint, matched: string, newCaseId: string, newUploadId: string)
    requires a.created ==> UserModerationOf(db.userModeration, userId).openReviewCount < 1
    ensures var r := ModeratedStore(db, cfg, now, userId, outcome, v, a, fp, matched, newCaseId, newUploadId);
      forall u :: u in db.userModeration ==>
        u in r.userModeration && r.userModeration[u].openReviewCount >= db.userModeration[u].openReviewCount
  {
    var db1 := AdmittedState(db, userId, outcome, a, newCaseId, fp);
    AdmittedStateKeeps(db, userId, outcome, a, newCaseId, fp);
    var um := UserModerationOf(db.userModeration, userId);
    var db2 := AppealedState(db1, cfg, now, userId, outcome, a, um);
    AppealedStateKeepsOpenCounts(db1, cfg, now, userId, outcome, a, um);
    ModeratedStoreParts(db, cfg, now, userId, outcome, v, a, fp, matched, newCaseId, newUploadId);
  }

  /** The user documents after a request are those after the cooldown
      update, and the cases are those after it with the upload linked. */
  lemma ModeratedStoreParts(db: Db, cfg: Config, now: int, userId: string, outcome: Outcome, v: Verdict,
                            a: Admission, fp: Fingerprint, matched: string, newCaseId: string, newUploadId: string)
    ensures var db2 := AppealedState(AdmittedState(db, userId, outcome, a, newCaseId, fp), cfg, now, userId, outcome, a,
                                     UserModerationOf(db.userModeration, userId));
      var r := ModeratedStore(db, cfg, now, userId, outcome, v, a, fp, matched, newCaseId, newUploadId);
      && r.userModeration == db2.userModeration
      && r.reviewCases == if a.reviewCaseId != "" then LinkUpload(db2.reviewCases, a.reviewCaseId, newUploadId, fp)
                          else db2.reviewCases
  {
    var db1 := AdmittedState(db, userId, outcome, a, newCaseId, fp);
    var db2 := AppealedState(db1, cfg, now, userId, outcome, a, UserModerationOf(db.userModeration, userId));
    var up := StoredUpload(userId, outcome, v, a.reviewCaseId, fp, matched);
    var db3 := db2.(uploads := db2.uploads[newUploadId := up]);
    assert db3.userModeration == db2.userModeration && db3.reviewCases == db2.reviewCases;
    if a.reviewCaseId != "" {
      var cases := LinkUpload(db3.reviewCases, a.reviewCaseId, newUploadId, fp);
      assert ModeratedStore(db, cfg, now, userId, outcome, v, a, fp, matched, newCaseId, newUploadId) == db3.(reviewCases := cases);
    }
  }

  /** The cooldown update changes no open-review count. */
  lemma AppealedStateKeepsOpenCounts(db: Db, cfg: Config, now: int, userId: string, outcome: Outcome, a: Admission, um: UserModeration)
    ensures var r := AppealedState(db, cfg, now, userId, outcome, a, um);
      forall u :: u in db.userModeration ==>
        u in r.userModeration && r.userModeration[u].openReviewCount == db.userModeration[u].openReviewCount
  {
  }

  /** A case the request opens is in review for the user, holds the upload's
      fingerprints, lists the new upload and counts as the user's open review. */
  lemma OpenedCaseIsCounted(db: Db, cfg: Config, now: int, userId: string, outcome: Outcome, v: Verdict,
                            a: Admission, fp: Fingerprint, matched: string, newCaseId: string, newUploadId: string)
    requires Checked(userId, outcome) && a.created && a.reviewCaseId == newCaseId && newCaseId != ""
    ensures var r := ModeratedStore(db, cfg, now, userId, outcome, v, a, fp, matched, newCaseId, newUploadId);
      && r.reviewCases[newCaseId] == NewCase(userId, fp).(linkedUploadIds := [newUploadId])
      && r.userModeration[userId].openReviewCount == 1
  {
    var db1 := AdmittedState(db, userId, outcome, a, newCaseId, fp);
    var c := NewCase(userId, fp);
    assert db1.reviewCases[newCaseId] == c;
    assert !FalseAppealApplies(db1, userId, outcome, a);
    var db2 := AppealedState(db1, cfg, now, userId, outcome, a, UserModerationOf(db.userModeration, userId));
    assert db2.reviewCases[newCaseId] == c;
    assert ArrayUnion(c.linkedUploadIds, newUploadId) == [newUploadId];
    assert ArrayUnion(c.fingerprints, fp) == [fp];
  }

  /** Without resolved cases, the request keeps it that way and never counts
      a false appeal. */
  lemma ModeratedStoreKeepsNoResolved(db: Db, cfg: Config, now: int, userId: string, outcome: Outcome, v: Verdict,
                                      a: Admission, fp: Fingerprint, matched: string, newCaseId: string, newUploadId: string)
    requires NoResolvedCases(db)
    ensures var r := ModeratedStore(db, cfg, now, userId, outcome, v, a, fp, matched, newCaseId, newUploadId);
      && NoResolvedCases(r)
      && forall u :: u in db.userModeration ==>
           u in r.userModeration && r.userModeration[u].falseAppealCount == db.userModeration[u].falseAppealCount
  {
    var db1 := AdmittedState(db, userId, outcome, a, newCaseId, fp);
    AdmittedStateKeeps(db, userId, outcome, a, newCaseId, fp);
    NoFalseAppealWithoutResolved(db1, userId, outcome, a);
    var db2 := AppealedState(db1, cfg, now, userId, outcome, a, UserModerationOf(db.userModeration, userId));
    assert db2 == db1;
    ModeratedStoreParts(db, cfg, now, userId, outcome, v, a, fp, matched, newCaseId, newUploadId);
    if a.reviewCaseId != "" {
      LinkUploadKeepsStatuses(db1.reviewCases, a.reviewCaseId, newUploadId, fp);
    }
  }

  /** The admission writes open only cases in review, never touch a
      false-appeal count and only raise an open-review count. */
  lemma AdmittedStateKeeps(db: Db, userId: string, outcome: Outcome, a: Admission, newCaseId: string, fp: Fingerprint)
    ensures var r := AdmittedState(db, userId, outcome, a, newCaseId, fp);
      && (NoResolvedCases(db) ==> NoResolvedCases(r))
      && (forall u :: u in db.userModeration ==>
           u in r.userModeration && r.userModeration[u].falseAppealCount == db.userModeration[u].falseAppealCount)
      && ((a.created ==> UserModerationOf(db.userModeration, userId).openReviewCount < 1) ==>
           forall u :: u in db.userModeration ==> r.userModeration[u].openReviewCount >= db.userModeration[u].openReviewCount)
  {
    if Checked(userId, outcome) && a.created {
      assert NewCase(userId, fp).status == "inReview";
    }
  }

  /** Linking an upload keeps the status of every case, and a case it
      creates has no status. */
  lemma LinkUploadKeepsStatuses(cases: map<string, ReviewCase>, id: string, uploadId: string, fp: Fingerprint)
    ensures var r := LinkUpload(cases, id, uploadId, fp);
      forall k :: k in r ==> r[k].status == (if k in cases then cases[k].status else "")
  {
    if id in cases {
      LinkUploadKeeps(cases, id, uploadId, fp);
    }
  }

  /** The 500 answer when the image cannot be decoded. */
  const FingerprintError := "Kon fingerprints niet genereren."

  /** The 200 answer. */
  function Answer(fin: (Outcome, Verdict), a: Admission, fp: Fingerprint, cached: bool, labels: seq<Label>): (r: ModerationReply)
    ensures r.outcome == fin.0 && r.applied == fin.1.applied && r.suggested == fin.1.suggested && r.reasons == fin.1.reasons
    ensures r.showSuggestionUI <==> |r.suggested| > 0
    ensures r.isSensitive <==> r.outcome != Allowed
    ensures r.canRequestReview <==> r.outcome == Forbidden && !a.inCooldown && a.openCase.None? && !a.created
    ensures r.reviewCaseId == a.reviewCaseId && r.fingerprints == fp
    ensures cached ==> r.legacyLabels == []
    ensures !cached ==> r.legacyLabels == LabelDescriptions(labels)
  {
    ModerationReply(fin.0, fin.1.applied, fin.1.suggested, fin.1.reasons, |fin.1.suggested| > 0,
                    CanRequestReview(fin.0, a), a.reviewCaseId, fp,
                    if cached then [] else LabelDescriptions(labels), fin.0 != Allowed)
  }

  /** `moderateImage` for an image with digest `sha256` and resized grid
      `grid` (`None` when the payload cannot be decoded), given the upload
      `matched` the lookup finds, the classifier answers, the review cases in
      store order and the fresh ids of the documents it may add. */
  function ModerateSpec(db: Db, cfg: Config, now: int, req: ModerationRequest, sha256: string, grid: Option<seq<byte>>,
                        matched: string, signals: Signals, caseOrder: seq<string>, newCaseId: string, newUploadId: string)
    : (r: (Result<ModerationReply, Failure>, Db))
    requires grid.Some? ==> |grid.value| == GridSize
    requires Enumerates(caseOrder, db.reviewCases)
    requires newCaseId !in db.reviewCases && newUploadId !in db.uploads
    ensures r.0.Err? ==> r.1 == db
    ensures r.0.Ok? ==> ParseImageDataUrl(req.image).Ok? && grid.Some?
  {
    match ParseImageDataUrl(req.image)
    case Err(e) => (Err(Failure(400, e)), db)
    case Ok(_) =>
      if grid.None? then (Err(Failure(500, FingerprintError)), db)
      else
      var fp := FingerprintOf(sha256, grid.value);
      var fin := Decision(db, req, matched, signals);
      var a := AdmissionOf(db, req, matched, signals, caseOrder, newCaseId, now);
      (Ok(Answer(fin, a, fp, CachedOf(db.uploads, matched).Some?, signals.labels)),
       ModeratedStore(db, cfg, now, req.userId, fin.0, fin.1, a, fp, matched, newCaseId, newUploadId))
  }

  // ----- Properties of a moderation request -----

  /** A request whose image is not a data URL is refused with 400, and one
      whose image cannot be decoded with 500; both write nothing. Any other
      request is answered, and the upload it stores carries the answer's
      outcome, lists and case. */
  lemma ModerateAnswers(db: Db, cfg: Config, now: int, req: ModerationRequest, sha256: string, grid: Option<seq<byte>>,
                        matched: string, signals: Signals, caseOrder: seq<string>, newCaseId: string, newUploadId: string)
    requires grid.Some? ==> |grid.value| == GridSize
    requires Enumerates(caseOrder, db.reviewCases)
    requires newCaseId !in db.reviewCases && newUploadId !in db.uploads
    ensures var r := ModerateSpec(db, cfg, now, req, sha256, grid, matched, signals, caseOrder, newCaseId, newUploadId);
      && (r.0.Err? <==> ParseImageDataUrl(req.image).Err? || grid.None?)
      && (r.0.Err? ==> r.1 == db)
      && (ParseImageDataUrl(req.image).Err? ==> r.0 == Err(Failure(400, ParseImageDataUrl(req.image).error)))
      && (ParseImageDataUrl(req.image).Ok? && grid.None? ==> r.0 == Err(Failure(500, FingerprintError)))
      && (r.0.Ok? ==>
            var rep := r.0.value;
            && r.1.uploads == db.uploads[newUploadId := StoredUpload(req.userId, rep.outcome,
                                           Verdict(rep.applied, rep.suggested, rep.reasons), rep.reviewCaseId, rep.fingerprints, matched)]
            && r.1.threads == db.threads && r.1.messages == db.messages && r.1.drafts == db.drafts
            && rep.isSensitive == (rep.outcome != Allowed)
            && rep.showSuggestionUI == (|rep.suggested| > 0))
  {
    if ParseImageDataUrl(req.image).Ok? && grid.Some? {
      var fp := FingerprintOf(sha256, grid.value);
      var fin := Decision(db, req, matched, signals);
      var a := AdmissionOf(db, req, matched, signals, caseOrder, newCaseId, now);
      ModeratedStoreFrame(db, cfg, now, req.userId, fin.0, fin.1, a, fp, matched, newCaseId, newUploadId);
    }
  }

  /** A duplicate answers with the stored outcome, suggestions and reasons and
      the stored applied triggers extended by the maker's tags. */
  lemma DuplicateReusesVerdict(db: Db, req: ModerationRequest, matched: string, signals: Signals)
    requires matched != "" && matched in db.uploads
    ensures var u := db.uploads[matched]; var fin := Decision(db, req, matched, signals);
      && fin.0 == u.outcome
      && fin.1.suggested == u.suggestedTriggers && fin.1.reasons == u.forbiddenReasons
      && fin.1.applied == MergeApplied(u.appliedTriggers, MakerRecords(NormalizeMakerTags(req.makerTags)))
  {
  }

  /** After a request has opened a case for a user, no later request of that
      user opens another one: the open review stays counted. */
  lemma OneCasePerUser(db: Db, cfg: Config, now: int, req: ModerationRequest, sha256: string, grid: seq<byte>,
                       matched: string, signals: Signals, caseOrder: seq<string>, newCaseId: string, newUploadId: string,
                       now2: int, req2: ModerationRequest, matched2: string, signals2: Signals,
                       caseOrder2: seq<string>, newCaseId2: string)
    requires |grid| == GridSize
    requires Enumerates(caseOrder, db.reviewCases)
    requires newCaseId !in db.reviewCases && newUploadId !in db.uploads
    requires ParseImageDataUrl(req.image).Ok?
    requires AdmissionOf(db, req, matched, signals, caseOrder, newCaseId, now).created && newCaseId != ""
    requires req2.userId == req.userId
    requires var db' := ModerateSpec(db, cfg, now, req, sha256, Some(grid), matched, signals, caseOrder, newCaseId, newUploadId).1;
      forall i :: 0 <= i < |caseOrder2| ==> caseOrder2[i] in db'.reviewCases
    ensures var db' := ModerateSpec(db, cfg, now, req, sha256, Some(grid), matched, signals, caseOrder, newCaseId, newUploadId).1;
      !AdmissionOf(db', req2, matched2, signals2, caseOrder2, newCaseId2, now2).created
  {
    var fp := FingerprintOf(sha256, grid);
    var fin := Decision(db, req, matched, signals);
    var a := AdmissionOf(db, req, matched, signals, caseOrder, newCaseId, now);
    OpenedCaseIsCounted(db, cfg, now, req.userId, fin.0, fin.1, a, fp, matched, newCaseId, newUploadId);
    var db' := ModeratedStore(db, cfg, now, req.userId, fin.0, fin.1, a, fp, matched, newCaseId, newUploadId);
    assert UserModerationOf(db'.userModeration, req2.userId).openReviewCount == 1;
  }
}
