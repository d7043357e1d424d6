/** The trigger classification engine of `moderateImage`: maker tags, the
    SafeSearch likelihoods, the vision labels and the Gemini classifier's items
    are banded by fixed thresholds into applied triggers, suggested triggers
    and forbidden reasons, from which the outcome follows. A duplicate upload
    instead reuses the verdict stored with its match. The classifier services
    themselves are outside the model: their answers are inputs. */
module Classification {
  import opened Basics
  import opened Strings

  const SuggestThreshold: real := 0.45
  const ForbiddenThreshold: real := 0.7
  /** Only selects a log line in the source; nothing depends on it. */
  const MediumLogThreshold: real := 0.55

  /** The `source` field of a trigger record: 'makerTag', 'safeSearch',
      'labelDetection' or 'gemini'. */
  datatype Source = MakerTag | SafeSearch | LabelDetection | Gemini

  datatype TriggerRecord = TriggerRecord(trigger: string, score: real, source: Source)

  datatype ForbiddenReason = ForbiddenReason(trigger: string, reason: string, score: real)

  datatype Outcome = Allowed | Suggested | Forbidden

  /** The three lists a classification produces. */
  datatype Verdict = Verdict(applied: seq<TriggerRecord>, suggested: seq<TriggerRecord>, reasons: seq<ForbiddenReason>)

  // ----- SafeSearch likelihoods -----

  /** The likelihood names in increasing order. */
  const Likelihoods: seq<string> := ["UNKNOWN", "VERY_UNLIKELY", "UNLIKELY", "POSSIBLE", "LIKELY", "VERY_LIKELY"]

  const LikelihoodScores: map<string, real> :=
    map["UNKNOWN" := 0.0, "VERY_UNLIKELY" := 0.1, "UNLIKELY" := 0.25,
        "POSSIBLE" := 0.5, "LIKELY" := 0.7, "VERY_LIKELY" := 0.9]

  /** `scoreFromLikelihood`: the table entry, 0 for any other value
      (a missing annotation field is the empty string). */
  function ScoreFromLikelihood(likelihood: string): (r: real)
    ensures likelihood in LikelihoodScores ==> r == LikelihoodScores[likelihood]
    ensures likelihood !in LikelihoodScores ==> r == 0.0
    ensures 0.0 <= r < 1.0
  {
    if likelihood in LikelihoodScores then LikelihoodScores[likelihood] else 0.0
  }

  /** The table grows strictly along the likelihood order. */
  lemma LikelihoodScoresIncrease(i: nat, j: nat)
    requires i < j < |Likelihoods|
    ensures ScoreFromLikelihood(Likelihoods[i]) < ScoreFromLikelihood(Likelihoods[j])
  {
  }

  /** Which likelihoods land in which band: LIKELY and VERY_LIKELY are
      forbidden, POSSIBLE is suggested, everything else contributes nothing. */
  lemma LikelihoodBands(likelihood: string)
    ensures ScoreFromLikelihood(likelihood) >= ForbiddenThreshold <==> likelihood == "LIKELY" || likelihood == "VERY_LIKELY"
    ensures (SuggestThreshold <= ScoreFromLikelihood(likelihood) < ForbiddenThreshold) <==> likelihood == "POSSIBLE"
  {
  }

  // ----- Vision labels -----

  datatype Label = Label(description: string, score: real)

  const NeedlesKeywords: seq<string> := ["needle", "syringe", "injection", "injections", "hypodermic", "vaccination"]
  const SpidersKeywords: seq<string> :=
    ["spider", "spiders", "insect", "insects", "bug", "bugs", "beetle", "mosquito", "cockroach", "ant", "fly"]

  /** The lower-cased description contains one of the keywords. */
  predicate LabelMatches(lbl: Label, keywords: seq<string>)
  {
    exists k | 0 <= k < |keywords| :: Contains(ToLower(lbl.description), keywords[k])
  }

  /** `extractLabelScore`: the largest score among the labels whose
      description matches a keyword, and 0 when none does (or all such
      scores are negative). */
  function ExtractLabelScore(labels: seq<Label>, keywords: seq<string>): (r: real)
    ensures r >= 0.0
    ensures forall i :: 0 <= i < |labels| && LabelMatches(labels[i], keywords) ==> labels[i].score <= r
    ensures r == 0.0 || exists i :: 0 <= i < |labels| && LabelMatches(labels[i], keywords) && labels[i].score == r
  {
    if |labels| == 0 then 0.0
    else
      var init := labels[..|labels| - 1];
      var acc := ExtractLabelScore(init, keywords);
      var last := labels[|labels| - 1];
      assert forall i :: 0 <= i < |init| ==> init[i] == labels[i];
      if LabelMatches(last, keywords) && last.score > acc then last.score else acc
  }

  // ----- Threshold banding -----

  /** One signal: forbidden ones go to the applied triggers and the reasons,
      the others at or above the suggestion threshold to the suggestions. */
  function Band(v: Verdict, rec: TriggerRecord, reason: string, forbidden: bool): Verdict
  {
    if forbidden then
      v.(applied := v.applied + [rec], reasons := v.reasons + [ForbiddenReason(rec.trigger, reason, rec.score)])
    else if rec.score >= SuggestThreshold then
      v.(suggested := v.suggested + [rec])
    else v
  }

  /** A SafeSearch or label signal, forbidden from 0.7 on. */
  function VisionBand(v: Verdict, trigger: string, score: real, source: Source, reason: string): Verdict
  {
    Band(v, TriggerRecord(trigger, score, source), reason, score >= ForbiddenThreshold)
  }

  /** The SafeSearch and label bands: a score of at least 0.7 adds one applied
      trigger and one reason; a score in [0.45, 0.7) adds one suggestion and
      nothing else; a lower score adds nothing. So no signal lands in both lists. */
  lemma VisionBandCases(v: Verdict, trigger: string, score: real, source: Source, reason: string)
    ensures var w := VisionBand(v, trigger, score, source, reason);
      var rec := TriggerRecord(trigger, score, source);
      && (score >= ForbiddenThreshold ==>
            w.applied == v.applied + [rec] && w.suggested == v.suggested &&
            w.reasons == v.reasons + [ForbiddenReason(trigger, reason, score)])
      && (SuggestThreshold <= score < ForbiddenThreshold ==>
            w.applied == v.applied && w.suggested == v.suggested + [rec] && w.reasons == v.reasons)
      && (score < SuggestThreshold ==> w == v)
  {
  }

  datatype SafeSearchAnnotation = SafeSearchAnnotation(racy: string, adult: string)

  /** One item of the Gemini answer (`item.trigger`, `item.confidence`,
      `item.severity`). */
  datatype GeminiItem = GeminiItem(trigger: string, confidence: real, severity: string)

  /** A parsed Gemini answer; a missing list is the empty list. */
  datatype GeminiResult = GeminiResult(triggers: seq<GeminiItem>, forbiddenReasons: seq<string>)

  /** One Gemini item: skipped when its trimmed trigger is empty; forbidden
      when its severity says so and its confidence reaches the suggestion
      threshold (0.45, not 0.7); otherwise suggested from 0.45 on. */
  function GeminiItemBand(v: Verdict, item: GeminiItem): Verdict
  {
    var trigger := Trim(item.trigger);
    if trigger == "" then v
    else
      Band(v, TriggerRecord(trigger, item.confidence, Gemini), "Gemini classifier",
           item.severity == "forbidden" && item.confidence >= SuggestThreshold)
  }

  function GeminiItemsBand(v: Verdict, items: seq<GeminiItem>): Verdict
  {
    if |items| == 0 then v
    else GeminiItemBand(GeminiItemsBand(v, items[..|items| - 1]), items[|items| - 1])
  }

  /** One free-text reason from Gemini: kept, trimmed, with trigger 'gemini'
      and score 1 when it is not blank. */
  function GeminiReason(v: Verdict, reason: string): Verdict
  {
    if Trim(reason) == "" then v
    else v.(reasons := v.reasons + [ForbiddenReason("gemini", Trim(reason), 1.0)])
  }

  function GeminiReasons(v: Verdict, reasons: seq<string>): Verdict
  {
    if |reasons| == 0 then v
    else GeminiReason(GeminiReasons(v, reasons[..|reasons| - 1]), reasons[|reasons| - 1])
  }

  /** `buildTriggerRecord(tag, 1, 'makerTag')` for every normalised maker tag. */
  function MakerRecords(tags: seq<string>): (r: seq<TriggerRecord>)
    ensures |r| == |tags|
    ensures forall i :: 0 <= i < |tags| ==> r[i] == TriggerRecord(tags[i], 1.0, MakerTag)
  {
    seq(|tags|, i requires 0 <= i < |tags| => TriggerRecord(tags[i], 1.0, MakerTag))
  }

  /** The SafeSearch, label and Gemini stages in source order, over the
      verdict `v` the preceding stages left. */
  function SafeSearchStage(v: Verdict, safeSearch: Option<SafeSearchAnnotation>): Verdict
  {
    match safeSearch
    case None => v
    case Some(a) =>
      var v1 := VisionBand(v, "nudityErotic", ScoreFromLikelihood(a.racy), SafeSearch, "SafeSearch racy");
      VisionBand(v1, "explicit18", ScoreFromLikelihood(a.adult), SafeSearch, "SafeSearch adult")
  }

  function LabelStage(v: Verdict, labels: seq<Label>): Verdict
  {
    var v1 := VisionBand(v, "needlesInjections", ExtractLabelScore(labels, NeedlesKeywords), LabelDetection, "Vision labels");
    VisionBand(v1, "spidersInsects", ExtractLabelScore(labels, SpidersKeywords), LabelDetection, "Vision labels")
  }

  function GeminiStage(v: Verdict, gemini: Option<GeminiResult>): Verdict
  {
    match gemini
    case None => v
    case Some(g) => GeminiReasons(GeminiItemsBand(v, g.triggers), g.forbiddenReasons)
  }

  /** The verdict of a fresh (not duplicate) classification. A classifier call
      that failed contributes nothing: `None` for SafeSearch and Gemini, no
      labels for label detection. */
  function FreshVerdict(makerTags: seq<string>, safeSearch: Option<SafeSearchAnnotation>,
                        labels: seq<Label>, gemini: Option<GeminiResult>): Verdict
  {
    var v0 := Verdict(MakerRecords(makerTags), [], []);
    GeminiStage(LabelStage(SafeSearchStage(v0, safeSearch), labels), gemini)
  }

  /** One `if (score >= forbidden) { push applied; push reason } else if
      (score >= 0.45) { push suggested }` block of `moderateImage`. */
  method PushSignal(v: Verdict, rec: TriggerRecord, reason: string, forbidden: bool) returns (w: Verdict)
    ensures w == Band(v, rec, reason, forbidden)
  {
    w := v;
    if forbidden {
      w := w.(applied := w.applied + [rec]);
      w := w.(reasons := w.reasons + [ForbiddenReason(rec.trigger, reason, rec.score)]);
    } else if rec.score >= SuggestThreshold {
      w := w.(suggested := w.suggested + [rec]);
    }
  }

  /** The loop over the Gemini items. */
  method PushGeminiItems(v: Verdict, items: seq<GeminiItem>) returns (w: Verdict)
    ensures w == GeminiItemsBand(v, items)
  {
    w := v;
    for i := 0 to |items|
      invariant w == GeminiItemsBand(v, items[..i])
    {
      assert items[..i + 1][..i] == items[..i];
      var trigger := Trim(items[i].trigger);
      if trigger != "" {
        var confidence := items[i].confidence;
        w := PushSignal(w, TriggerRecord(trigger, confidence, Gemini), "Gemini classifier",
                        items[i].severity == "forbidden" && confidence >= SuggestThreshold);
      }
    }
    assert items[..|items|] == items;
  }

  /** The loop over Gemini's free-text forbidden reasons. */
  method PushGeminiReasons(v: Verdict, texts: seq<string>) returns (w: Verdict)
    ensures w == GeminiReasons(v, texts)
  {
    w := v;
    for i := 0 to |texts|
      invariant w == GeminiReasons(v, texts[..i])
    {
      assert texts[..i + 1][..i] == texts[..i];
      var reason := Trim(texts[i]);
      if reason != "" {
        w := w.(reasons := w.reasons + [ForbiddenReason("gemini", reason, 1.0)]);
      }
    }
    assert texts[..|texts|] == texts;
  }

  /** The imperative classification of `moderateImage` for an upload without
      a match: start from the maker-tag records and push into the three lists
      signal by signal. */
  method ClassifyFresh(makerTags: seq<string>, safeSearch: Option<SafeSearchAnnotation>,
                       labels: seq<Label>, gemini: Option<GeminiResult>)
    returns (applied: seq<TriggerRecord>, suggested: seq<TriggerRecord>, reasons: seq<ForbiddenReason>)
    ensures Verdict(applied, suggested, reasons) == FreshVerdict(makerTags, safeSearch, labels, gemini)
  {
    var v := Verdict(MakerRecords(makerTags), [], []);
    if safeSearch.Some? {
      var nudityScore := ScoreFromLikelihood(safeSearch.value.racy);
      var explicitScore := ScoreFromLikelihood(safeSearch.value.adult);
      v := PushSignal(v, TriggerRecord("nudityErotic", nudityScore, SafeSearch), "SafeSearch racy",
                      nudityScore >= ForbiddenThreshold);
      v := PushSignal(v, TriggerRecord("explicit18", explicitScore, SafeSearch), "SafeSearch adult",
                      explicitScore >= ForbiddenThreshold);
    }
    var needlesScore := ExtractLabelScore(labels, NeedlesKeywords);
    var spidersScore := ExtractLabelScore(labels, SpidersKeywords);
    v := PushSignal(v, TriggerRecord("needlesInjections", needlesScore, LabelDetection), "Vision labels",
                    needlesScore >= ForbiddenThreshold);
    v := PushSignal(v, TriggerRecord("spidersInsects", spidersScore, LabelDetection), "Vision labels",
                    spidersScore >= ForbiddenThreshold);
    if gemini.Some? {
      v := PushGeminiItems(v, gemini.value.triggers);
      v := PushGeminiReasons(v, gemini.value.forbiddenReasons);
    }
    applied, suggested, reasons := v.applied, v.suggested, v.reasons;
  }

  // ----- Outcome -----

  /** The final outcome rule: forbidden when there is a forbidden reason, else
      suggested when there is a suggestion, else allowed. */
  function OutcomeOf(v: Verdict): (o: Outcome)
    ensures o == Forbidden <==> |v.reasons| > 0
    ensures o == Suggested <==> |v.reasons| == 0 && |v.suggested| > 0
    ensures o == Allowed <==> |v.reasons| == 0 && |v.suggested| == 0
  {
    if |v.reasons| > 0 then Forbidden
    else if |v.suggested| > 0 then Suggested
    else Allowed
  }

  /** A Gemini item that the classifier marks forbidden and that counts. */
  predicate GeminiForbids(item: GeminiItem)
  {
    Trim(item.trigger) != "" && item.severity == "forbidden" && item.confidence >= SuggestThreshold
  }

  /** Some signal of a fresh classification crosses its forbidden band. */
  predicate AnySignalForbids(safeSearch: Option<SafeSearchAnnotation>, labels: seq<Label>, gemini: Option<GeminiResult>)
  {
    || (safeSearch.Some? &&
        (ScoreFromLikelihood(safeSearch.value.racy) >= ForbiddenThreshold ||
         ScoreFromLikelihood(safeSearch.value.adult) >= ForbiddenThreshold))
    || ExtractLabelScore(labels, NeedlesKeywords) >= ForbiddenThreshold
    || ExtractLabelScore(labels, SpidersKeywords) >= ForbiddenThreshold
    || (gemini.Some? &&
        (SomeGeminiForbids(gemini.value.triggers) ||
         (exists i | 0 <= i < |gemini.value.forbiddenReasons| :: Trim(gemini.value.forbiddenReasons[i]) != "")))
  }

  lemma GeminiItemBandReasons(v: Verdict, item: GeminiItem)
    ensures |GeminiItemBand(v, item).reasons| > 0 <==> |v.reasons| > 0 || GeminiForbids(item)
  {
    var trigger := Trim(item.trigger);
    if trigger != "" {
      var forbidden := item.severity == "forbidden" && item.confidence >= SuggestThreshold;
      var w := Band(v, TriggerRecord(trigger, item.confidence, Gemini), "Gemini classifier", forbidden);
      assert GeminiItemBand(v, item) == w;
      if forbidden {
        assert |w.reasons| == |v.reasons| + 1;
      } else {
        assert w.reasons == v.reasons;
      }
    }
  }

  predicate SomeGeminiForbids(items: seq<GeminiItem>)
  {
    exists i | 0 <= i < |items| :: GeminiForbids(items[i])
  }

  lemma SomeGeminiForbidsSplit(items: seq<GeminiItem>)
    requires |items| > 0
    ensures SomeGeminiForbids(items) <==>
            SomeGeminiForbids(items[..|items| - 1]) || GeminiForbids(items[|items| - 1])
  {
    ExistsSplit(items, items[..|items| - 1], GeminiForbids);
  }

  lemma {:induction false} GeminiItemsReasons(v: Verdict, items: seq<GeminiItem>)
    ensures |GeminiItemsBand(v, items).reasons| > 0 <==> |v.reasons| > 0 || SomeGeminiForbids(items)
  {
    if |items| > 0 {
      var init := items[..|items| - 1];
      var last := items[|items| - 1];
      var before := GeminiItemsBand(v, init);
      assert GeminiItemsBand(v, items) == GeminiItemBand(before, last);
      GeminiItemsReasons(v, init);
      GeminiItemBandReasons(before, last);
      SomeGeminiForbidsSplit(items);
    }
  }

  lemma {:induction false} GeminiReasonsReasons(v: Verdict, reasons: seq<string>)
    ensures |GeminiReasons(v, reasons).reasons| > 0 <==>
            |v.reasons| > 0 || exists i | 0 <= i < |reasons| :: Trim(reasons[i]) != ""
  {
    if |reasons| > 0 {
      var init := reasons[..|reasons| - 1];
      GeminiReasonsReasons(v, init);
      assert forall i :: 0 <= i < |init| ==> init[i] == reasons[i];
      if exists i | 0 <= i < |reasons| :: Trim(reasons[i]) != "" {
        var i :| 0 <= i < |reasons| && Trim(reasons[i]) != "";
        if i < |init| { assert Trim(init[i]) != ""; }
      }
    }
  }

  /** A fresh classification is forbidden exactly when some signal crosses
      its forbidden band: a SafeSearch or label score of at least 0.7, a
      Gemini item marked forbidden with confidence at least 0.45, or a
      non-blank Gemini reason. Maker tags never make it forbidden. */
  lemma VisionBandReasons(v: Verdict, trigger: string, score: real, source: Source, reason: string)
    ensures |VisionBand(v, trigger, score, source, reason).reasons| > 0 <==> |v.reasons| > 0 || score >= ForbiddenThreshold
  {
  }

  lemma FreshForbiddenIff(makerTags: seq<string>, safeSearch: Option<SafeSearchAnnotation>,
                          labels: seq<Label>, gemini: Option<GeminiResult>)
    ensures OutcomeOf(FreshVerdict(makerTags, safeSearch, labels, gemini)) == Forbidden <==>
            AnySignalForbids(safeSearch, labels, gemini)
  {
    var v0 := Verdict(MakerRecords(makerTags), [], []);
    var v1 := SafeSearchStage(v0, safeSearch);
    if safeSearch.Some? {
      var a := safeSearch.value;
      var va := VisionBand(v0, "nudityErotic", ScoreFromLikelihood(a.racy), SafeSearch, "SafeSearch racy");
      VisionBandReasons(v0, "nudityErotic", ScoreFromLikelihood(a.racy), SafeSearch, "SafeSearch racy");
      VisionBandReasons(va, "explicit18", ScoreFromLikelihood(a.adult), SafeSearch, "SafeSearch adult");
    }
    var needles := ExtractLabelScore(labels, NeedlesKeywords);
    var spiders := ExtractLabelScore(labels, SpidersKeywords);
    var vb := VisionBand(v1, "needlesInjections", needles, LabelDetection, "Vision labels");
    VisionBandReasons(v1, "needlesInjections", needles, LabelDetection, "Vision labels");
    VisionBandReasons(vb, "spidersInsects", spiders, LabelDetection, "Vision labels");
    var v2 := LabelStage(v1, labels);
    if gemini.Some? {
      var v3 := GeminiItemsBand(v2, gemini.value.triggers);
      GeminiItemsReasons(v2, gemini.value.triggers);
      GeminiReasonsReasons(v3, gemini.value.forbiddenReasons);
    }
  }

  /** With no classifier contribution at all the upload is allowed and its
      applied triggers are exactly the maker-tag records. */
  lemma MakerTagsAloneAllowed(makerTags: seq<string>)
    ensures var v := FreshVerdict(makerTags, None, [], None);
      OutcomeOf(v) == Allowed && v.applied == MakerRecords(makerTags) && v.suggested == [] && v.reasons == []
  {
  }

  /** Some forbidden reason names the trigger `t`. */
  predicate HasReason(reasons: seq<ForbiddenReason>, t: string)
  {
    exists j | 0 <= j < |reasons| :: reasons[j].trigger == t
  }

  /** A reason stays when more reasons are pushed after it. */
  lemma HasReasonExtend(reasons: seq<ForbiddenReason>, more: seq<ForbiddenReason>, t: string)
    requires HasReason(reasons, t)
    ensures HasReason(reasons + more, t)
  {
    var j :| 0 <= j < |reasons| && reasons[j].trigger == t;
    assert (reasons + more)[j] == reasons[j];
  }

  /** Every banded record keeps its provenance: the maker-tag records come
      first, unchanged; every other applied record is a classifier record at
      or above its forbidden threshold and was pushed together with a reason
      naming its trigger; every suggestion is a classifier record at or above
      0.45 and, unless it comes from Gemini, below 0.7. */
  predicate WellBanded(v: Verdict, makerCount: nat)
  {
    && makerCount <= |v.applied|
    && (forall i :: 0 <= i < makerCount ==> v.applied[i].source == MakerTag)
    && (forall i :: makerCount <= i < |v.applied| ==>
          v.applied[i].source != MakerTag &&
          v.applied[i].score >= (if v.applied[i].source == Gemini then SuggestThreshold else ForbiddenThreshold))
    && (forall i :: makerCount <= i < |v.applied| ==> HasReason(v.reasons, v.applied[i].trigger))
    && (forall i :: 0 <= i < |v.suggested| ==>
          v.suggested[i].source != MakerTag && v.suggested[i].score >= SuggestThreshold &&
          (v.suggested[i].source != Gemini ==> v.suggested[i].score < ForbiddenThreshold))
  }

  lemma GeminiItemBandWellBanded(v: Verdict, item: GeminiItem, makerCount: nat)
    requires WellBanded(v, makerCount)
    ensures WellBanded(GeminiItemBand(v, item), makerCount)
    ensures GeminiItemBand(v, item).applied[..makerCount] == v.applied[..makerCount]
  {
    var w := GeminiItemBand(v, item);
    assert forall i :: 0 <= i < |v.applied| ==> w.applied[i] == v.applied[i];
    assert forall i :: 0 <= i < |v.suggested| ==> w.suggested[i] == v.suggested[i];
    BandKeepsReasons(v, w, makerCount);
  }

  /** A band step that pushes an applied record pushes its reason too, so the
      reasons of the records already applied stay. */
  lemma BandKeepsReasons(v: Verdict, w: Verdict, makerCount: nat)
    requires WellBanded(v, makerCount)
    requires |v.applied| <= |w.applied| <= |v.applied| + 1 && w.applied[..|v.applied|] == v.applied
    requires |v.reasons| <= |w.reasons| && w.reasons[..|v.reasons|] == v.reasons
    requires |w.applied| > |v.applied| ==>
               |w.reasons| > |v.reasons| && w.reasons[|v.reasons|].trigger == w.applied[|v.applied|].trigger
    ensures forall i :: makerCount <= i < |w.applied| ==> HasReason(w.reasons, w.applied[i].trigger)
  {
    assert w.reasons == v.reasons + w.reasons[|v.reasons|..];
    forall i | makerCount <= i < |w.applied|
      ensures HasReason(w.reasons, w.applied[i].trigger)
    {
      if i < |v.applied| {
        assert w.applied[i] == v.applied[i];
        HasReasonExtend(v.reasons, w.reasons[|v.reasons|..], v.applied[i].trigger);
      } else {
        assert w.reasons[|v.reasons|].trigger == w.applied[i].trigger;
      }
    }
  }

  lemma {:induction false} GeminiItemsWellBanded(v: Verdict, items: seq<GeminiItem>, makerCount: nat)
    requires WellBanded(v, makerCount)
    ensures WellBanded(GeminiItemsBand(v, items), makerCount)
    ensures GeminiItemsBand(v, items).applied[..makerCount] == v.applied[..makerCount]
  {
    if |items| > 0 {
      GeminiItemsWellBanded(v, items[..|items| - 1], makerCount);
      GeminiItemBandWellBanded(GeminiItemsBand(v, items[..|items| - 1]), items[|items| - 1], makerCount);
    }
  }

  lemma {:induction false} GeminiReasonsKeep(v: Verdict, reasons: seq<string>)
    ensures GeminiReasons(v, reasons).applied == v.applied && GeminiReasons(v, reasons).suggested == v.suggested
    ensures |v.reasons| <= |GeminiReasons(v, reasons).reasons|
    ensures GeminiReasons(v, reasons).reasons[..|v.reasons|] == v.reasons
  {
    if |reasons| > 0 {
      GeminiReasonsKeep(v, reasons[..|reasons| - 1]);
    }
  }

  /** Pushing free-text reasons keeps a verdict well banded. */
  lemma GeminiReasonsWellBanded(v: Verdict, reasons: seq<string>, makerCount: nat)
    requires WellBanded(v, makerCount)
    ensures WellBanded(GeminiReasons(v, reasons), makerCount)
  {
    var w := GeminiReasons(v, reasons);
    GeminiReasonsKeep(v, reasons);
    assert w.reasons == v.reasons + w.reasons[|v.reasons|..];
    forall i | makerCount <= i < |w.applied|
      ensures HasReason(w.reasons, w.applied[i].trigger)
    {
      HasReasonExtend(v.reasons, w.reasons[|v.reasons|..], v.applied[i].trigger);
    }
  }

  lemma VisionBandWellBanded(v: Verdict, trigger: string, score: real, source: Source, reason: string, makerCount: nat)
    requires WellBanded(v, makerCount)
    requires source == SafeSearch || source == LabelDetection
    ensures WellBanded(VisionBand(v, trigger, score, source, reason), makerCount)
    ensures VisionBand(v, trigger, score, source, reason).applied[..makerCount] == v.applied[..makerCount]
  {
    var w := VisionBand(v, trigger, score, source, reason);
    assert forall i :: 0 <= i < |v.applied| ==> w.applied[i] == v.applied[i];
    assert forall i :: 0 <= i < |v.suggested| ==> w.suggested[i] == v.suggested[i];
    BandKeepsReasons(v, w, makerCount);
  }

  lemma FreshWellBanded(makerTags: seq<string>, safeSearch: Option<SafeSearchAnnotation>,
                        labels: seq<Label>, gemini: Option<GeminiResult>)
    ensures WellBanded(FreshVerdict(makerTags, safeSearch, labels, gemini), |makerTags|)
    ensures FreshVerdict(makerTags, safeSearch, labels, gemini).applied[..|makerTags|] == MakerRecords(makerTags)
  {
    var v0 := Verdict(MakerRecords(makerTags), [], []);
    var n := |makerTags|;
    assert v0.applied[..n] == MakerRecords(makerTags);
    var v1 := SafeSearchStage(v0, safeSearch);
    if safeSearch.Some? {
      var a := safeSearch.value;
      var va := VisionBand(v0, "nudityErotic", ScoreFromLikelihood(a.racy), SafeSearch, "SafeSearch racy");
      VisionBandWellBanded(v0, "nudityErotic", ScoreFromLikelihood(a.racy), SafeSearch, "SafeSearch racy", n);
      VisionBandWellBanded(va, "explicit18", ScoreFromLikelihood(a.adult), SafeSearch, "SafeSearch adult", n);
    }
    var needles := ExtractLabelScore(labels, NeedlesKeywords);
    var spiders := ExtractLabelScore(labels, SpidersKeywords);
    var vb := VisionBand(v1, "needlesInjections", needles, LabelDetection, "Vision labels");
    VisionBandWellBanded(v1, "needlesInjections", needles, LabelDetection, "Vision labels", n);
    VisionBandWellBanded(vb, "spidersInsects", spiders, LabelDetection, "Vision labels", n);
    var v2 := LabelStage(v1, labels);
    if gemini.Some? {
      GeminiItemsWellBanded(v2, gemini.value.triggers, |makerTags|);
      GeminiReasonsKeep(GeminiItemsBand(v2, gemini.value.triggers), gemini.value.forbiddenReasons);
      GeminiReasonsWellBanded(GeminiItemsBand(v2, gemini.value.triggers), gemini.value.forbiddenReasons, |makerTags|);
    }
  }

  // ----- Reused verdicts -----

  /** What `moderateImage` takes from a matched upload. */
  datatype CachedResult = CachedResult(outcome: Outcome, applied: seq<TriggerRecord>, suggested: seq<TriggerRecord>,
                                       reasons: seq<ForbiddenReason>, reviewCaseId: string)

  /** `cached.some((c) => c.trigger === item.trigger && c.source === item.source)`. */
  predicate HasKey(records: seq<TriggerRecord>, rec: TriggerRecord)
  {
    exists i | 0 <= i < |records| :: records[i].trigger == rec.trigger && records[i].source == rec.source
  }

  /** The records of `incoming` whose (trigger, source) pair is not in `cached`, in order. */
  function NewRecords(cached: seq<TriggerRecord>, incoming: seq<TriggerRecord>): (r: seq<TriggerRecord>)
    ensures forall i :: 0 <= i < |r| ==> r[i] in incoming && !HasKey(cached, r[i])
    ensures forall i :: 0 <= i < |incoming| && !HasKey(cached, incoming[i]) ==> incoming[i] in r
    ensures |r| <= |incoming|
    ensures r == Filter(incoming, rec => !HasKey(cached, rec))
  {
    if |incoming| == 0 then []
    else
      var rest := NewRecords(cached, incoming[1..]);
      assert forall i :: 1 <= i < |incoming| ==> incoming[i] == incoming[1..][i - 1];
      if HasKey(cached, incoming[0]) then rest else [incoming[0]] + rest
  }

  /** The applied triggers of a duplicate: the cached ones followed by this
      request's records whose (trigger, source) pair is not cached yet. */
  function MergeApplied(cached: seq<TriggerRecord>, incoming: seq<TriggerRecord>): seq<TriggerRecord>
  {
    cached + NewRecords(cached, incoming)
  }

  /** The merge is a union by (trigger, source): the cached list is kept as a
      prefix, every record of the request is represented, and nothing appended
      repeats a cached pair. */
  lemma MergeAppliedIsUnion(cached: seq<TriggerRecord>, incoming: seq<TriggerRecord>)
    ensures var m := MergeApplied(cached, incoming);
      && m[..|cached|] == cached
      && (forall i :: 0 <= i < |incoming| ==> HasKey(m, incoming[i]))
      && (forall i :: |cached| <= i < |m| ==> m[i] in incoming && !HasKey(cached, m[i]))
  {
    var m := MergeApplied(cached, incoming);
    var added := NewRecords(cached, incoming);
    forall i | 0 <= i < |incoming| ensures HasKey(m, incoming[i]) {
      if HasKey(cached, incoming[i]) {
        var j :| 0 <= j < |cached| && cached[j].trigger == incoming[i].trigger && cached[j].source == incoming[i].source;
        assert m[j] == cached[j];
      } else {
        var j :| 0 <= j < |added| && added[j] == incoming[i];
        assert m[|cached| + j] == incoming[i];
      }
    }
    forall i | |cached| <= i < |m| ensures m[i] in incoming && !HasKey(cached, m[i]) {
      assert m[i] == added[i - |cached|];
    }
  }

  lemma {:induction false} NewRecordsOfCovered(cached: seq<TriggerRecord>, incoming: seq<TriggerRecord>)
    requires forall i :: 0 <= i < |incoming| ==> HasKey(cached, incoming[i])
    ensures NewRecords(cached, incoming) == []
  {
    if |incoming| > 0 {
      NewRecordsOfCovered(cached, incoming[1..]);
    }
  }

  /** Merging the same request's records into an already merged list adds
      nothing: reusing a verdict twice with the same maker tags is stable. */
  lemma MergeAppliedIdempotent(cached: seq<TriggerRecord>, incoming: seq<TriggerRecord>)
    ensures MergeApplied(MergeApplied(cached, incoming), incoming) == MergeApplied(cached, incoming)
  {
    MergeAppliedIsUnion(cached, incoming);
    NewRecordsOfCovered(MergeApplied(cached, incoming), incoming);
  }

  /** What `moderateImage` answers: a duplicate reuses the cached outcome,
      suggestions and reasons verbatim and merges this request's maker tags
      into the cached applied triggers; otherwise the incoming classification. */
  function FinalVerdict(cached: Option<CachedResult>, makerTags: seq<string>, incoming: Verdict): (r: (Outcome, Verdict))
    ensures cached.Some? ==>
      && r.0 == cached.value.outcome
      && r.1 == Verdict(MergeApplied(cached.value.applied, MakerRecords(makerTags)),
                        cached.value.suggested, cached.value.reasons)
    ensures cached.None? ==> r == (OutcomeOf(incoming), incoming)
  {
    match cached
    case Some(c) =>
      (c.outcome, Verdict(MergeApplied(c.applied, MakerRecords(makerTags)), c.suggested, c.reasons))
    case None => (OutcomeOf(incoming), incoming)
  }
}
