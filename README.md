# Artes moderation core in Dafny

This project models two parts of the Artes photo platform and proves properties of them.

**The moderation backend** (`functions/index.js`) has five parts:
- `moderateImage` classifies an uploaded image, with these steps:
  - it decodes the data URL;
  - it fingerprints the image with a SHA-256 digest and a 64-bit difference hash;
  - it looks up an earlier upload of the same image;
  - it reuses that upload's verdict, or classifies afresh from the maker's tags, Cloud Vision SafeSearch and labels, and an optional Gemini answer;
  - for a forbidden upload it decides whether a review case is reused, opened or refused;
  - it stores the upload and links it to its case.
- `moderatorClaim` and `moderatorRelease` take and drop a ten-minute claim on a review case.
- `moderatorDecide` validates a decision and records it on the case and the upload, then sends the maker a message.
- `userModerationAction` lets the maker publish, keep as a draft or dismiss an approved upload.

**The web client's feed-visibility helpers** (`src/ArtesApp.jsx`):
- the normalisation of a profile's trigger preferences;
- how a post's trigger keys and content preference are found;
- the Gallery's hide and cover rules;
- profile defaults;
- `themeColor`;
- the trigger list that publishing stores;
- Discover's interleaved, searched list.

## Structure

Modules follow the source. The pure parts of the source are functions with contracts. The parts that loop or update state are methods, each proved equal to a specification function:
- the dhash and Hamming loops;
- the classifier's push loops;
- the near-duplicate scan;
- `normalizeTriggerPreferences`;
- Discover's loop;
- the Firestore store.

MODULES:
- `Basics` (basics.dfy): Option, Result, and the order-keeping de-duplication of `new Set`.
- `Strings` (strings.dfy): `trim`, ASCII `toLowerCase`, `includes`, `split`/`join`, `indexOf`.
- `Fingerprints` (fingerprint.dfy): the dhash, `hammingDistance` and `buildFingerprint`.
- `Classification` (classification.dfy): likelihood scores, label scores, the banding of every signal, the outcome rule and the merge of a duplicate's triggers.
- `MakerTags` (maker_tags.dfy): `normalizeMakerTags`.
- `Duplicates` (duplicates.dfy): `findExactUpload` and `findNearDuplicateUpload` over query snapshots.
- `Requests` (requests.dfy): `parseImageDataUrl`, the brace span of `parseGeminiJson` and `createDecisionMessage`.
- `Documents` (documents.dfy): the stored documents, and the store as a value (`Db`, one map per collection).
- `Review` (review.dfy): the moderator endpoints and the maker's action. Each is a transaction function from a store to a reply and a new store.
- `Moderation` (moderation.dfy): `moderateImage` as a function of the store, the request and the classifier answers.
- `Backend` (backend.dfy): `Store`, a class whose fields are the collections. Its methods are the endpoints, and each is proved to produce exactly the reply and store its transaction function gives.
- `TriggerVisibility` (triggers.dfy) and `Client` (client.dfy): the web client's helpers.

Conventions:
- A missing string field is `""`. Every test the source makes on such a field is a truthiness test or a comparison with a non-empty literal.
- Firestore query results depend on the store's order of documents. That order is an input: a sequence listing the collection.
- New document ids are inputs: `newCaseId`, `newUploadId`, `messageId` and `draftId`.

Two consequences of the source are proved rather than assumed:
- No endpoint ever writes the case status `resolved`. So the false-appeal cooldown of `moderateImage` can never fire (`Moderation.ModeratedStoreKeepsNoResolved`, `Review.TransactionsKeepNoResolved`).
- Once a user's open-review count is 1, no later request of that user opens a case, because no endpoint lowers the count (`Moderation.OneCasePerUser`).

## Model

| member | source | states |
|---|---|---|
| Basics.Dedup | functions/index.js:138 | the result has no duplicates and holds exactly the elements of the input |
| Basics.DedupKeepsFirstOrder | functions/index.js:138 | the elements come in the order of their first occurrences in the input, which with `Dedup`'s contract fixes the result |
| Basics.DedupOfNoDuplicates | functions/index.js:138 | a list without duplicates is returned unchanged, so first occurrences keep their order |
| Basics.DedupIdempotent | functions/index.js:138 | de-duplicating twice is de-duplicating once |
| Strings.Trim | functions/index.js:134 | the result has no leading or trailing white space and is no longer than the input |
| Strings.TrimIdempotent | functions/index.js:134 | trimming twice is trimming once |
| Strings.TrimPadded | functions/index.js:134 | white space added around a trimmed non-empty string is removed again, and nothing else is |
| Strings.ToLower | functions/index.js:136 | same length, each character lower-cased |
| Strings.ToLowerIsLower | functions/index.js:136 | the result is lower case and lower-casing it again changes nothing |
| Strings.Split | functions/index.js:133 | joining the pieces with the separator gives back the string |
| Strings.SplitJoin | functions/index.js:133 | splitting a join of separator-free pieces gives back the pieces |
| Strings.IndexOf | functions/index.js:296 | the first position of the character, or -1 when it does not occur |
| Strings.LastIndexOf | functions/index.js:297 | the last position of the character, or -1 when it does not occur |
| Fingerprints.Dhash | functions/index.js:172-192 | the hash of a 9x8 grid has 16 characters |
| Fingerprints.DhashIsHex | functions/index.js:186-191 | every character of the hash is a lower-case hex digit |
| Fingerprints.GradientBits | functions/index.js:178-185 | the nested loops push 64 bits, bit 8y+x being whether pixel (x, y) is brighter than its right neighbour |
| Fingerprints.HexOfBits | functions/index.js:186-191 | the chunk loop turns those 64 bits into `Dhash` of the grid |
| Fingerprints.ComputeDhash | functions/index.js:172-192 | the two nested bit loops and the chunk loop compute `Dhash` |
| Fingerprints.DhashEncodesGradient | functions/index.js:179-185 | decoding bit 8y+x of the hash gives whether pixel (x, y) is brighter than its right neighbour |
| Fingerprints.HexValueOfDigit | functions/index.js:189-198 | `parseInt` reads back every digit `toString(16)` writes |
| Fingerprints.ParseFourBits | functions/index.js:188-189 | a 4-character chunk of bits parses to its binary value |
| Fingerprints.HammingDistance | functions/index.js:194-202 | the loop computes `DistanceOf`: infinite for a missing or differently long hash, else the table sum |
| Fingerprints.DistanceSymmetric | functions/index.js:194-202 | the distance is symmetric |
| Fingerprints.DistanceToSelf | functions/index.js:194-202 | a hash is at distance 0 from itself; a missing one is at infinite distance |
| Fingerprints.DistanceBound | functions/index.js:194-202 | two hashes of length n differ in at most 4n bits |
| Fingerprints.DigitDistanceCountsBits | functions/index.js:170 | the table entry of the XOR of two digits counts their differing bits |
| Fingerprints.DhashDistanceIsBitDifference | functions/index.js:170-202 | the distance of two dhashes is the number of the 64 gradient bits in which the grids differ |
| Fingerprints.SlicePrefix | functions/index.js:210 | `slice(0, n)` is the prefix of length min(n, length) |
| Fingerprints.BuildFingerprint | functions/index.js:204-212 | the digest is kept, the hash is `Dhash` of the grid and the prefix is its first four digits |
| Classification.ScoreFromLikelihood | functions/index.js:141 | the table entry for a known likelihood and 0 for anything else, always in [0, 1) |
| Classification.LikelihoodScoresIncrease | functions/index.js:14-21 | the scores grow strictly along UNKNOWN ... VERY_LIKELY |
| Classification.LikelihoodBands | functions/index.js:10-21 | LIKELY and VERY_LIKELY reach the forbidden band and POSSIBLE only the suggestion band |
| Classification.ExtractLabelScore | functions/index.js:281-290 | the score is the maximum over matching labels, or 0 when none matches |
| Classification.VisionBandCases | functions/index.js:435-477 | a score of at least 0.7 adds one applied record and one reason; one in [0.45, 0.7) adds one suggestion; a lower one changes nothing |
| Classification.MakerRecords | functions/index.js:400 | one maker-tag record of score 1 per normalised tag, in order |
| Classification.PushSignal | functions/index.js:439-444 | one banding step appends exactly as `Band` specifies |
| Classification.PushGeminiItems | functions/index.js:486-498 | the loop over Gemini items computes `GeminiItemsBand` |
| Classification.PushGeminiReasons | functions/index.js:499-505 | the loop over Gemini's free-text reasons computes `GeminiReasons` |
| Classification.ClassifyFresh | functions/index.js:398-510 | the imperative classification yields `FreshVerdict` of the maker tags and classifier answers |
| Classification.GeminiItemsReasons | functions/index.js:486-498 | the Gemini items add a reason exactly when some item is forbidden with a confidence of at least 0.45 and a non-blank trigger |
| Classification.GeminiReasonsReasons | functions/index.js:499-505 | free-text reasons add a reason exactly when one is a non-blank string |
| Classification.OutcomeOf | functions/index.js:511-517 | forbidden iff there is a reason, suggested iff none but a suggestion, allowed otherwise |
| Classification.FreshForbiddenIff | functions/index.js:435-517 | a fresh classification is forbidden exactly when some signal crosses its forbidden band |
| Classification.MakerTagsAloneAllowed | functions/index.js:398-517 | with no classifier answer the upload is allowed and carries only the maker's records |
| Classification.FreshWellBanded | functions/index.js:398-510 | maker records come first and unchanged; every other applied record is a classifier record scoring at least 0.7 (0.45 for Gemini) and has a forbidden reason naming its trigger; every suggestion is a classifier record scoring at least 0.45, and below 0.7 unless it comes from Gemini |
| Classification.NewRecords | functions/index.js:521-523 | the incoming records `filter`ed by "no cached record has the same (trigger, source)": their order and repetitions are kept |
| Classification.MergeAppliedIsUnion | functions/index.js:520-524 | the cached list is kept as a prefix and every incoming record is covered by (trigger, source) |
| Classification.MergeAppliedIdempotent | functions/index.js:520-524 | merging the same request's records again adds nothing |
| Classification.FinalVerdict | functions/index.js:511-526 | a duplicate keeps the cached outcome, suggestions and reasons and merges the applied triggers; a fresh upload uses its own verdict and the outcome rule |
| MakerTags.RawTags | functions/index.js:129-133 | an array as given, a string split on commas, anything else no entries |
| MakerTags.CleanTags | functions/index.js:134-136 | every kept tag is trimmed, non-empty and lower case |
| MakerTags.NormalizeMakerTags | functions/index.js:128-139 | no duplicates, and every tag clean |
| MakerTags.NormalizeMakerTagsCoverage | functions/index.js:128-139 | every non-blank raw entry is represented by its cleaned form, and nothing else appears |
| MakerTags.StringTagsAreSplit | functions/index.js:131-133 | a string is treated as the array of its comma-separated pieces |
| MakerTags.OtherInputNoTags | functions/index.js:129-133 | neither an array nor a string gives no tags |
| MakerTags.NormalizeMakerTagsIdempotent | functions/index.js:128-139 | normalising a normalised list changes nothing |
| MakerTags.NormalizeMakerTagsJoined | functions/index.js:128-139 | clean, distinct, comma-free tags joined by commas come back unchanged |
| Duplicates.Distances | functions/index.js:273 | the distance of each candidate to the new hash, in snapshot order |
| Duplicates.FindNearDuplicate | functions/index.js:262-279 | none iff the hash is missing or no candidate is within the threshold; otherwise the first candidate of minimal distance |
| Duplicates.IdenticalHashIsBest | functions/index.js:272-276 | a candidate with the identical hash is chosen when no earlier candidate is also at distance 0 |
| Duplicates.BestMatchUnique | functions/index.js:262-279 | the selection rule determines the match |
| Duplicates.FindExact | functions/index.js:255-260 | the first upload with the same digest, or none iff no upload has it |
| Requests.ParseImageDataUrl | functions/index.js:143-154 | a non-string and a non-matching string are refused with their two messages; an accepted string matches the pattern, and the result is its MIME type and payload |
| Requests.ParseImageDataUrlAcceptsMatches | functions/index.js:147-153 | every string matching the pattern is accepted with its own format and payload |
| Requests.ExtractJsonObject | functions/index.js:294-304 | none iff no `{` comes before a `}`; otherwise the span from the first `{` to the last `}` |
| Requests.CreateDecisionMessage | functions/index.js:111-126 | an unread, unresolved message whose title and both actions are those of an approval exactly when the decision is `approved` |
| Review.ClaimTransaction | functions/index.js:676-722 | errors 403/400/404/409 write nothing; a live claim of another moderator is reported with its email; otherwise the caller's ten-minute claim is written |
| Review.ReleaseTransaction | functions/index.js:736-753 | only the holder's claim is removed; nothing else changes |
| Review.ValidateDecision | functions/index.js:778-798 | accepted iff the id is set, the decision is approved/rejected, the trimmed message is non-empty and at most 280 characters, and there are at most 3 reasons; each of the five refusals, in source order, carries its own message |
| Review.TargetUploadId | functions/index.js:838 | `uploadId`, else the first linked upload, else none |
| Review.DecideTransaction | functions/index.js:806-901 | succeeds iff the caller is a moderator, the request is valid and the case is decidable; the refusals in source order are 403, the validation error, 404, 409, 423, 400 for a case without upload or user, and 500 for a missing upload; on success it writes the decision on the case and the upload, removes the claim, pins the thread and adds the message; any error writes nothing |
| Review.TouchThread | functions/index.js:1002 | the thread is created or kept, and no other thread changes |
| Review.ActionTransaction | functions/index.js:914-1002 | each refusal in source order, 403 unverified, 400 missing fields, 400 invalid action, 404, 403 not authorised, 409 not approved, is pinned to its message, and a 409 means exactly an unapproved publish or draft; each action's writes, and nothing written on error |
| Review.DecisionIsFinal | functions/index.js:812-820 | after a decision the case can be neither decided again nor claimed |
| Review.ClaimExcludesOthers | functions/index.js:700-709 | a live claim makes other moderators' decisions fail with 423 and their claims report the holder |
| Review.HolderMayDecide | functions/index.js:819-826 | the holder of a claim can still decide the case |
| Review.ExpiredClaimIsFree | functions/index.js:703-705 | an expired claim is taken by any moderator |
| Review.ReleaseThenClaim | functions/index.js:746-753 | after the holder releases the case, another moderator can claim it |
| Review.ReleaseKeepsOthersClaim | functions/index.js:750-752 | a release by someone else changes nothing |
| Review.ApprovalEnablesPublishing | functions/index.js:848-856 | an approval leaves the upload pending, and the maker's publish action then succeeds, publishes it and resolves the message |
| Review.RejectionBlocksPublishing | functions/index.js:944-951 | a rejection blocks the upload, and any action but dismissal fails |
| Review.TransactionsKeepNoResolved | functions/index.js:858-868 | no endpoint writes the status `resolved` |
| Moderation.HashListing | functions/index.js:255-256 | the digest of each upload in store order |
| Moderation.WithPrefix | functions/index.js:264-267 | the uploads whose stored prefix is the given one, in store order |
| Moderation.PrefixBucket | functions/index.js:264-269 | the first 25 uploads with the given prefix in store order, or all of them when there are fewer |
| Moderation.Candidates | functions/index.js:271-273 | each bucket document with its stored hash |
| Moderation.MatchUnique | functions/index.js:378-386 | the lookup has a single answer |
| Moderation.MatchIsDuplicate | functions/index.js:378-386 | a match is an upload with the same digest or a near hash with the same prefix; no match means no upload has the digest |
| Moderation.FirstOpenCase | functions/index.js:242-253 | a case of the user that is in review and no case before it in store order is; none iff the user has no such case |
| Moderation.Admit | functions/index.js:528-573 | the check runs only for a forbidden upload whose request body names a `userId`; an open case is adopted; a case is opened iff there is no case id, no open case, no cooldown, review rights and no open review counted |
| Moderation.CanRequestReviewIff | functions/index.js:575 | a review can be requested iff the upload is forbidden and neither a cooldown, an open case nor a new case applies |
| Moderation.AdmitOnceOpen | functions/index.js:547-549 | a user with an open review counted gets no new case |
| Moderation.AdmittedState | functions/index.js:535-573 | without the check nothing is written; with it only the user's own moderation document is written, and the new case is added and counted exactly when the admission created one |
| Moderation.FalseAppeal | functions/index.js:582-595 | the count goes up by one, and the cooldown starts iff the threshold is reached |
| Moderation.SecondFalseAppealCoolsDown | functions/index.js:582-595 | with the defaults, a second false appeal puts the user in a seven-day cooldown |
| Moderation.AppealedState | functions/index.js:577-600 | the user's stored document becomes its false-appeal update exactly when the upload's case was resolved as rejected; otherwise nothing changes |
| Moderation.NoFalseAppealWithoutResolved | functions/index.js:582 | without resolved cases the false-appeal branch never applies |
| Moderation.ArrayUnion | functions/index.js:640-641 | the element is appended once unless already present, and the array is a prefix of the result |
| Moderation.LinkUpload | functions/index.js:636-650 | the case lists the upload and its fingerprints; other cases are unchanged |
| Moderation.LinkUploadKeeps | functions/index.js:636-650 | linking keeps the case's other fields, and linking twice is linking once |
| Moderation.LabelDescriptions | functions/index.js:612 | the labels' descriptions in order with the empty ones dropped |
| Moderation.CachedOf | functions/index.js:388-397 | a cached result iff a stored upload matched |
| Moderation.IncomingVerdict | functions/index.js:398-510 | a duplicate calls no classifier, so only its maker records enter; a fresh upload gets `FreshVerdict` |
| Moderation.Decision | functions/index.js:388-526 | an upload without a match gets the fresh verdict of its normalised maker tags and classifier answers, with the outcome rule of `OutcomeOf` |
| Moderation.AdmissionOf | functions/index.js:528-575 | without the check nothing is adopted, opened or cooled down; with it the adopted case is the user's first open case and the cooldown is read from the stored document; a new case has the new id |
| Moderation.StoredUpload | functions/index.js:617-630 | the upload document holds the outcome, the three lists, the case, the fingerprints and the match, and no review or publication state |
| Moderation.ModeratedStore | functions/index.js:528-651 | the store after a request holds the new upload and the same threads, messages and drafts |
| Moderation.Answer | functions/index.js:602-615 | the response carries the final outcome and lists; the suggestion flag, the sensitive flag and `canRequestReview` follow them; legacy labels are empty for a duplicate |
| Moderation.ModerateSpec | functions/index.js:345-651 | a refused request writes nothing; an answered one had a valid data URL and a decodable image |
| Moderation.ModeratedStoreFrame | functions/index.js:617-650 | the request adds its upload, links it to its case and touches no thread, message or draft |
| Moderation.OpenReviewCountNeverDecreases | functions/index.js:556-563 | no open-review count goes down |
| Moderation.OpenedCaseIsCounted | functions/index.js:549-563 | a new case is in review for the user, holds the upload and its fingerprints, and the user's open-review count is 1 |
| Moderation.ModeratedStoreKeepsNoResolved | functions/index.js:577-600 | no resolved case appears and no false appeal is counted |
| Moderation.ModerateAnswers | functions/index.js:362-651 | an invalid data URL gets 400 and an image that cannot be decoded 500, and neither writes anything; otherwise the stored upload carries the answer's outcome, lists and case, and the sensitive and suggestion flags follow the outcome and suggestions |
| Moderation.DuplicateReusesVerdict | functions/index.js:388-526 | a duplicate answers with the stored outcome, suggestions and reasons and the merged applied triggers |
| Moderation.OneCasePerUser | functions/index.js:547-563 | after a request opened a case, no later request of that user opens another |
| Backend.Store.constructor | functions/index.js:36 | the store holds the given collections |
| Backend.Store.Claim | functions/index.js:671-729 | the reply and the new store are those of `ClaimTransaction` |
| Backend.Store.Release | functions/index.js:731-759 | the reply and the new store are those of `ReleaseTransaction` |
| Backend.Store.Decide | functions/index.js:761-907 | the reply and the new store are those of `DecideTransaction` |
| Backend.Store.Act | functions/index.js:909-1007 | the reply and the new store are those of `ActionTransaction` |
| Backend.Store.LookupUpload | functions/index.js:378-386 | the upload found is the one `MatchFound` specifies |
| Backend.Store.GetUserModeration | functions/index.js:224-240 | the stored document, or the initial one, which is then written; nothing else changes |
| Backend.Store.AdmitReview | functions/index.js:535-573 | the admission is `Admit` of the stored state; the store becomes `AdmittedState` |
| Backend.Store.RecordFalseAppeal | functions/index.js:577-600 | the store becomes `AppealedState` |
| Backend.Store.ClassifyUpload | functions/index.js:388-526 | the verdict is `Decision` of the store, request and classifier answers |
| Backend.Store.RecordModeration | functions/index.js:528-650 | the admission is `Admit` and the store becomes `ModeratedStore` |
| Backend.Store.ModerateImage | functions/index.js:345-651 | over store orders that list whole collections and fresh document ids, the match is the one `MatchFound` specifies and the reply and the new store are those of `ModerateSpec` |
| TriggerVisibility.StoredOrCover | src/ArtesApp.jsx:133-134 | a valid stored preference is kept; anything else becomes `cover` |
| TriggerVisibility.NormalizedPreferencesCases | src/ArtesApp.jsx:131-138 | keys are the input's plus the 8 trigger ids; every trigger id holds one of the three preferences; valid values and non-trigger keys are kept; other trigger ids become `cover` |
| TriggerVisibility.OverwriteTriggers | src/ArtesApp.jsx:132-136 | the loop gives every listed id its valid stored value or `cover` and keeps every other key and value |
| TriggerVisibility.NormalizeTriggerPreferences | src/ArtesApp.jsx:131-138 | the copy-and-overwrite loop computes `NormalizedPreferences` |
| TriggerVisibility.NormalizeIdempotent | src/ArtesApp.jsx:131-138 | normalising a normalised dictionary changes nothing |
| TriggerVisibility.FindTrigger | src/ArtesApp.jsx:141 | the first entry whose id or label is the key, or none iff no entry matches |
| TriggerVisibility.ResolveTriggerKeyCases | src/ArtesApp.jsx:140-143 | a matching key resolves to a trigger id; any other key is unchanged |
| TriggerVisibility.ResolveTriggerId | src/ArtesApp.jsx:140-143 | a trigger id resolves to itself |
| TriggerVisibility.ResolveTriggerLabel | src/ArtesApp.jsx:140-143 | a label resolves to its entry's id |
| TriggerVisibility.ResolveIdempotent | src/ArtesApp.jsx:140-143 | resolving twice is resolving once |
| TriggerVisibility.PostTriggerKeysCases | src/ArtesApp.jsx:145-149 | no duplicates; the resolved key of every entry of the three lists is present and nothing else; empty iff all three lists are |
| TriggerVisibility.PreferenceOf | src/ArtesApp.jsx:154 | a non-empty stored preference, and `cover` for a missing or empty entry |
| TriggerVisibility.ContentPreferenceCases | src/ArtesApp.jsx:151-158 | `hideFeed` iff some key is hidden; else `cover` iff some key's preference is `cover`; else `show`; `show` for a post without triggers |
| TriggerVisibility.GalleryPreferences | src/ArtesApp.jsx:1023 | the profile's dictionary, or one that has every trigger id set to `cover` |
| TriggerVisibility.VisiblePosts | src/ArtesApp.jsx:1025 | exactly the posts whose preference is not `hideFeed` are kept |
| TriggerVisibility.CoverIff | src/ArtesApp.jsx:1024-1031 | a post is covered iff some key's preference is `cover`, none is `hideFeed`, and it is not revealed |
| TriggerVisibility.DefaultPreferencesCoverAll | src/ArtesApp.jsx:1023-1031 | without a profile dictionary every post is shown, and every post with a trigger is covered until revealed |
| Client.ProfileSeed | src/ArtesApp.jsx:161 | `uid`, else the display name, else the fallback seed |
| Client.NormalizeProfileData | src/ArtesApp.jsx:160-185 | roles default to `['fan']` and themes to `['General']` when missing or empty; an empty name, bio or theme becomes its default; an empty avatar becomes the default avatar of `ProfileSeed`; missing links become `''`; the trigger dictionary is normalised |
| Client.DefaultAvatar | src/ArtesApp.jsx:128-129 | the avatar URL starts with the avatar service address |
| Client.NormalizeProfileIdempotent | src/ArtesApp.jsx:160-185 | normalising a normalised profile again gives the same profile, whatever the fallback seed |
| Client.JsRem | src/ArtesApp.jsx:91 | JavaScript's `%`: the remainder takes the sign of the dividend |
| Client.ThemeColor | src/ArtesApp.jsx:89-94 | a palette entry: the character-code sum mod 7 for a label, the fallback index mod 7 without one, undefined only for a negative fallback with a non-zero remainder |
| Client.CodeSumAppend | src/ArtesApp.jsx:92 | the code sum of a concatenation is the sum of the code sums |
| Client.ThemeColorRotate | src/ArtesApp.jsx:89-94 | the colour does not depend on the order of a label's two halves |
| Client.PublishErrors | src/ArtesApp.jsx:1428-1433 | one error per failed check (image, title, styles, moderation), and none iff all pass |
| Client.FinalTriggers | src/ArtesApp.jsx:1440-1443 | the applied triggers when there are any, else the maker tags; with suggestions, their union without duplicates |
| Client.Publish | src/ArtesApp.jsx:1427-1457 | refused with the errors iff a check fails; otherwise the final triggers, their labels, `sensitive` iff there is a trigger, and `unchecked` for a missing outcome |
| Client.ForbiddenNeverPublished | src/ArtesApp.jsx:1432 | a forbidden upload is never published |
| Client.LabelFrom | src/ArtesApp.jsx:1234 | the label of the last entry with the id, or the id itself |
| Client.TriggerLabel | src/ArtesApp.jsx:1235 | a trigger id gets its label; anything else is unchanged |
| Client.LabelResolvesToId | src/ArtesApp.jsx:1235 | the stored label of a trigger id resolves back to the id |
| Client.PublishedLabelsResolve | src/ArtesApp.jsx:1454 | the labels a post stores for its trigger ids resolve back to those ids |
| Client.MixedContent | src/ArtesApp.jsx:1084-1093 | on the `all` tab the loop builds the interleaving and then filters it by the search; other tabs give nothing |
| Client.MixedKeepsBoth | src/ArtesApp.jsx:1087-1091 | the interleaving holds all posts and all makers, each in their own order |
| Client.MixedAlternates | src/ArtesApp.jsx:1087-1091 | while both lists last, post i is at position 2i and maker i right after it |
| Client.FilterItems | src/ArtesApp.jsx:1092 | exactly the items whose lower-cased title or name contains the lower-cased search |
| Client.FilterPostsOf | src/ArtesApp.jsx:1092 | filtering keeps the posts' order |
| Client.MixedContentPosts | src/ArtesApp.jsx:1084-1093 | the posts Discover lists are exactly the matching posts, in feed order |

## Left out

- Image decoding, resizing, grayscale conversion and the SHA-256 digest are done by `sharp` and `crypto`. The model takes the digest and the resized 9x8 grid as inputs, with no grid when the payload cannot be decoded, which answers 500.
- Base64 decoding of the payload is not modelled. The payload is kept as text.
- The Cloud Vision and Gemini calls are inputs. So is the result of `JSON.parse` on Gemini's text, of which only the brace span is modelled. A failed call is an absent answer, as the source's `catch` makes it.
- Authentication (`verifyToken`, `ensureModerator`, `requireVerifiedPasswordUser`, the moderator e-mail list) is reduced to flags on the caller.
- A missing or invalid token answers 401 in the source. The model folds that answer into the 403 of a caller who is not a moderator.
- Review.DecideTransaction: when the upload named by the case is missing, the commit fails with status 500; the error text, which the store produces, is not modelled.
- The method checks (OPTIONS, 405), the handling of malformed JSON bodies and the `isModerator` endpoint are not modelled.
- `FieldValue.serverTimestamp()` fields (`createdAt`, `updatedAt`, `decidedAt` and so on) are not modelled. `approvedAt` is the request time. The cooldown's `Date`/`Timestamp` values are integers of milliseconds.
- Moderation.ModerateSpec: a store read or write inside `moderateImage` that throws and is caught and logged is not modelled. The model assumes every Firestore call succeeds.
- The decide transaction first writes a fresh claim and then deletes it in the same transaction. Only the final state, without a claim, is modelled.
- The medium-log threshold (0.55) only selects a log line. It is declared and never used.
- Strings.ToLower: lower-cases ASCII letters only, not full Unicode case mapping.
- Review.ValidateDecision: the 280-character limit counts Unicode scalar values, not UTF-16 code units.
- Client.ThemeColor: character codes are Unicode scalar values, not UTF-16 code units, so labels outside the Basic Multilingual Plane are not modelled exactly.
- Array entries that are not strings, and JavaScript's `String(x)` conversion of them, are not modelled. This covers maker tags, decision reasons and Gemini fields.
- Scores are exact reals rather than floating-point numbers.
- TriggerVisibility.PostTriggerKeysCases: post trigger entries are strings. The record objects the server returns in `appliedTriggers` resolve to themselves in the source and are left out.
- TriggerVisibility.PreferenceOf: a dictionary lookup in the model. In JavaScript, `triggerVisibility?.[key]` also finds names inherited from `Object.prototype`, such as `constructor`. For a post whose only trigger key is such a name, the source reads a truthy non-preference and shows the post, where the model covers it. The web client picks triggers from the fixed trigger ids, so it cannot produce such a key.
- Client.NormalizeProfileData: the spread copies every other profile and preference field unchanged; those other fields are not modelled.
- Client.DefaultAvatar: `encodeURIComponent` is a parameter.
- Client.Publish: only the trigger fields, `sensitive` and `outcome` of the published post are modelled. The rest of the post, the upload, and the React state updates are not.
- React rendering, hooks, onboarding, `compressImage`, `tintTowardWhite`, `src/App.jsx` and `src/components/` are not part of this model.
