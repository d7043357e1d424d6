/** How the web client decides whether a post with sensitive-content triggers
    is shown, covered or hidden in the feed. A preference map is the
    `triggerVisibility` dictionary of a profile: trigger id to one of
    `show`, `cover` or `hideFeed` (a missing dictionary is the empty map).
    Trigger entries of posts are taken to be strings. */
module TriggerVisibility {
  import opened Basics

  /** One entry of `TRIGGERS`. */
  datatype TriggerInfo = TriggerInfo(id: string, text: string)

  const Triggers: seq<TriggerInfo> := [
    TriggerInfo("nudityErotic", "Naakt (erotisch)"),
    TriggerInfo("explicit18", "Expliciet 18+"),
    TriggerInfo("kinkBdsm", "Kink / BDSM"),
    TriggerInfo("breathRestriction", "Ademrestrictie"),
    TriggerInfo("bloodInjury", "Bloed / verwonding"),
    TriggerInfo("horrorScare", "Horror / schrik"),
    TriggerInfo("needlesInjections", "Naalden / injecties"),
    TriggerInfo("spidersInsects", "Spinnen / insecten")
  ]

  /** The ids of `TRIGGER_PREFERENCE_OPTIONS`. */
  const Show := "show"
  const Cover := "cover"
  const HideFeed := "hideFeed"

  predicate IsPreference(v: string)
  {
    v == Show || v == Cover || v == HideFeed
  }

  predicate IsTriggerId(k: string)
  {
    exists j :: 0 <= j < |Triggers| && Triggers[j].id == k
  }

  // ----- normalizeTriggerPreferences -----

  /** The value `normalizeTriggerPreferences` writes for trigger `id`: the
      stored value when it is one of the options, `cover` otherwise. */
  function StoredOrCover(tv: map<string, string>, id: string): (v: string)
    ensures IsPreference(v)
    ensures id in tv && IsPreference(tv[id]) ==> v == tv[id]
    ensures !(id in tv && IsPreference(tv[id])) ==> v == Cover
  {
    if id in tv && IsPreference(tv[id]) then tv[id] else Cover
  }

  /** The dictionary `normalizeTriggerPreferences` returns: a copy of `tv`
      in which every trigger id holds its normalised preference. */
  function NormalizedPreferences(tv: map<string, string>): map<string, string>
  {
    map k | k in tv.Keys + (set k | k in TriggerIds()) :: if k in TriggerIds() then StoredOrCover(tv, k) else tv[k]
  }

  /** The normalised dictionary has the keys of `tv` and every trigger id;
      every trigger id holds one of the three options; valid stored values
      and keys that are no trigger id are kept, and the other trigger ids
      hold `cover`. */
  lemma NormalizedPreferencesCases(tv: map<string, string>)
    ensures var r := NormalizedPreferences(tv);
      && (forall k :: k in r <==> k in tv || IsTriggerId(k))
      && (forall k :: IsTriggerId(k) ==> k in r && IsPreference(r[k]))
      && (forall k :: k in tv && IsPreference(tv[k]) ==> r[k] == tv[k])
      && (forall k :: k in tv && !IsTriggerId(k) ==> r[k] == tv[k])
      && (forall k :: k in r && !(k in tv && IsPreference(tv[k])) && IsTriggerId(k) ==> r[k] == Cover)
  {
    TriggerIdsAreIds();
  }

  /** The ids of `TRIGGERS`, in order. */
  function TriggerIds(): (ids: seq<string>)
    ensures |ids| == |Triggers|
    ensures forall j :: 0 <= j < |Triggers| ==> ids[j] == Triggers[j].id
  {
    seq(|Triggers|, j requires 0 <= j < |Triggers| => Triggers[j].id)
  }

  lemma TriggerIdsAreIds()
    ensures forall k :: k in TriggerIds() <==> IsTriggerId(k)
  {
    forall k | IsTriggerId(k)
      ensures k in TriggerIds()
    {
      var j :| 0 <= j < |Triggers| && Triggers[j].id == k;
      assert TriggerIds()[j] == k;
    }
  }

  /** The loop of `normalizeTriggerPreferences`: starting from a copy of
      `tv`, overwrite each id of `ids` in turn with its normalised value. */
  method OverwriteTriggers(tv: map<string, string>, ids: seq<string>) returns (normalized: map<string, string>)
    ensures forall k :: k in normalized <==> k in tv || k in ids
    ensures forall k :: k in ids ==> normalized[k] == StoredOrCover(tv, k)
    ensures forall k :: k in tv && k !in ids ==> normalized[k] == tv[k]
  {
    normalized := tv;
    for i := 0 to |ids|
      invariant forall k :: k in normalized <==> k in tv || k in ids[..i]
      invariant forall k :: k in ids[..i] ==> normalized[k] == StoredOrCover(tv, k)
      invariant forall k :: k in tv && k !in ids[..i] ==> normalized[k] == tv[k]
    {
      assert ids[..i + 1] == ids[..i] + [ids[i]];
      normalized := normalized[ids[i] := StoredOrCover(tv, ids[i])];
    }
    assert ids[..|ids|] == ids;
  }

  /** `normalizeTriggerPreferences`: copy the dictionary, then overwrite
      each trigger id in the order of `TRIGGERS`. */
  method NormalizeTriggerPreferences(tv: map<string, string>) returns (normalized: map<string, string>)
    ensures normalized == NormalizedPreferences(tv)
  {
    normalized := OverwriteTriggers(tv, TriggerIds());
    var spec := NormalizedPreferences(tv);
    assert forall k :: k in normalized <==> k in spec;
    assert forall k :: k in normalized ==> normalized[k] == spec[k];
  }

  /** Normalising an already normalised dictionary changes nothing. */
  lemma NormalizeIdempotent(tv: map<string, string>)
    ensures NormalizedPreferences(NormalizedPreferences(tv)) == NormalizedPreferences(tv)
  {
    var once := NormalizedPreferences(tv);
    var twice := NormalizedPreferences(once);
    NormalizedPreferencesCases(tv);
    NormalizedPreferencesCases(once);
    assert forall k :: k in twice <==> k in once;
    forall k | k in once
      ensures twice[k] == once[k]
    {
      if IsTriggerId(k) {
        assert IsPreference(once[k]);
      }
    }
  }

  // ----- resolveTriggerKey -----

  /** `TRIGGERS.find`'s test: the entry has `t` as its id or its label (`text`). */
  predicate Matches(info: TriggerInfo, t: string)
  {
    info.id == t || info.text == t
  }

  /** The index of the first entry of `TRIGGERS` from `from` on that
      matches `t`. */
  function FindTrigger(t: string, from: nat): (r: Option<nat>)
    requires from <= |Triggers|
    ensures r.Some? ==> from <= r.value < |Triggers| && Matches(Triggers[r.value], t)
    ensures r.Some? ==> forall j :: from <= j < r.value ==> !Matches(Triggers[j], t)
    ensures r.None? ==> forall j :: from <= j < |Triggers| ==> !Matches(Triggers[j], t)
    decreases |Triggers| - from
  {
    if from == |Triggers| then None
    else if Matches(Triggers[from], t) then Some(from)
    else FindTrigger(t, from + 1)
  }

  /** `resolveTriggerKey`: the id of the first entry with `t` as id or
      label, or `t` itself when there is none. */
  function ResolveTriggerKey(t: string): string
  {
    var found := FindTrigger(t, 0);
    if found.Some? then Triggers[found.value].id else t
  }

  /** A key some entry matches resolves to a trigger id; any other key is
      left as it is. */
  lemma ResolveTriggerKeyCases(t: string)
    ensures (exists j :: 0 <= j < |Triggers| && Matches(Triggers[j], t)) ==> IsTriggerId(ResolveTriggerKey(t))
    ensures (forall j :: 0 <= j < |Triggers| ==> !Matches(Triggers[j], t)) ==> ResolveTriggerKey(t) == t
  {
    var found := FindTrigger(t, 0);
    if found.Some? {
      assert Triggers[found.value].id == ResolveTriggerKey(t);
    }
  }

  /** Labels start with a capital letter and ids with a small one. */
  lemma LabelsAreNotIds()
    ensures forall i, j :: 0 <= i < |Triggers| && 0 <= j < |Triggers| ==> Triggers[i].text != Triggers[j].id
  {
    forall i, j | 0 <= i < |Triggers| && 0 <= j < |Triggers|
      ensures Triggers[i].text != Triggers[j].id
    {
      assert 'A' <= Triggers[i].text[0] <= 'Z';
      assert 'a' <= Triggers[j].id[0] <= 'z';
    }
  }

  /** A trigger id resolves to itself. */
  lemma ResolveTriggerId(k: string)
    requires IsTriggerId(k)
    ensures ResolveTriggerKey(k) == k
  {
    LabelsAreNotIds();
    var found := FindTrigger(k, 0);
    var j :| 0 <= j < |Triggers| && Triggers[j].id == k;
    assert Matches(Triggers[j], k);
    assert found.Some?;
    assert Triggers[found.value].text != k;
  }

  /** No two entries share a label. */
  lemma LabelsDistinct()
    ensures forall i, j :: 0 <= i < j < |Triggers| ==> Triggers[i].text != Triggers[j].text
  {
  }

  /** A label resolves to the id of its entry. */
  lemma ResolveTriggerLabel(j: nat)
    requires j < |Triggers|
    ensures ResolveTriggerKey(Triggers[j].text) == Triggers[j].id
  {
    var t := Triggers[j].text;
    var found := FindTrigger(t, 0);
    assert Matches(Triggers[j], t);
    var m := found.value;
    assert m <= j;
    LabelsAreNotIds();
    assert Triggers[m].id != t;
    LabelsDistinct();
    assert m == j;
  }

  /** Resolving twice is resolving once. */
  lemma ResolveIdempotent(t: string)
    ensures ResolveTriggerKey(ResolveTriggerKey(t)) == ResolveTriggerKey(t)
  {
    if exists j :: 0 <= j < |Triggers| && Matches(Triggers[j], t) {
      ResolveTriggerKeyCases(t);
      ResolveTriggerId(ResolveTriggerKey(t));
    }
  }

  // ----- getPostTriggerKeys, getPostContentPreference -----

  /** The fields of a post the feed reads; a missing list is empty. */
  datatype Post = Post(id: string, title: string,
                       appliedTriggers: seq<string>, makerTags: seq<string>, triggers: seq<string>)

  function ResolveAll(ts: seq<string>): (r: seq<string>)
    ensures |r| == |ts|
    ensures forall i :: 0 <= i < |ts| ==> r[i] == ResolveTriggerKey(ts[i])
  {
    seq(|ts|, i requires 0 <= i < |ts| => ResolveTriggerKey(ts[i]))
  }

  /** `getPostTriggerKeys`: the resolved keys of all three lists, each once,
      in order of first occurrence. */
  function PostTriggerKeys(post: Post): seq<string>
  {
    Dedup(ResolveAll(post.appliedTriggers + post.makerTags + post.triggers))
  }

  /** The keys of a post are distinct, hold the resolved form of every
      entry of its three lists and nothing else, and are empty exactly when
      the three lists are. */
  lemma PostTriggerKeysCases(post: Post)
    ensures var r := PostTriggerKeys(post);
      var all := post.appliedTriggers + post.makerTags + post.triggers;
      && NoDuplicates(r)
      && (forall t :: t in all ==> ResolveTriggerKey(t) in r)
      && (forall k :: k in r ==> exists t :: t in all && k == ResolveTriggerKey(t))
      && (|r| == 0 <==> post.appliedTriggers == [] && post.makerTags == [] && post.triggers == [])
  {
    var all := post.appliedTriggers + post.makerTags + post.triggers;
    var resolved := ResolveAll(all);
    var r := Dedup(resolved);
    forall t | t in all
      ensures ResolveTriggerKey(t) in r
    {
      var i :| 0 <= i < |all| && all[i] == t;
      assert resolved[i] == ResolveTriggerKey(t);
    }
    forall k | k in r
      ensures exists t :: t in all && k == ResolveTriggerKey(t)
    {
      var i :| 0 <= i < |resolved| && resolved[i] == k;
      assert all[i] in all;
    }
    if |all| > 0 {
      assert resolved[0] in r;
    }
  }

  /** The preference a dictionary gives a key: `triggerVisibility?.[k] || 'cover'`. */
  function PreferenceOf(tv: map<string, string>, k: string): (v: string)
    ensures v != ""
    ensures k in tv && tv[k] != "" ==> v == tv[k]
    ensures !(k in tv && tv[k] != "") ==> v == Cover
  {
    if k in tv && tv[k] != "" then tv[k] else Cover
  }

  predicate SomePreference(tv: map<string, string>, keys: seq<string>, v: string)
  {
    exists i :: 0 <= i < |keys| && PreferenceOf(tv, keys[i]) == v
  }

  function Preferences(tv: map<string, string>, keys: seq<string>): (r: seq<string>)
    ensures |r| == |keys|
    ensures forall i :: 0 <= i < |keys| ==> r[i] == PreferenceOf(tv, keys[i])
  {
    seq(|keys|, i requires 0 <= i < |keys| => PreferenceOf(tv, keys[i]))
  }

  /** `getPostContentPreference`: `show` for a post without triggers; else
      the most restrictive of its triggers' preferences. */
  function ContentPreference(post: Post, tv: map<string, string>): string
  {
    var keys := PostTriggerKeys(post);
    if |keys| == 0 then Show
    else
      var preferences := Preferences(tv, keys);
      if HideFeed in preferences then HideFeed
      else if Cover in preferences then Cover
      else Show
  }

  /** The preferences of a list of keys are exactly the values some key has. */
  lemma PreferencesIn(tv: map<string, string>, keys: seq<string>, v: string)
    ensures v in Preferences(tv, keys) <==> SomePreference(tv, keys, v)
  {
    var preferences := Preferences(tv, keys);
    if v in preferences {
      var i :| 0 <= i < |preferences| && preferences[i] == v;
      assert PreferenceOf(tv, keys[i]) == v;
    }
    if SomePreference(tv, keys, v) {
      var i :| 0 <= i < |keys| && PreferenceOf(tv, keys[i]) == v;
      assert preferences[i] == v;
    }
  }

  /** A post is hidden when one of its keys is hidden; otherwise covered when
      one of its keys is covered, where a missing preference counts as
      `cover`; otherwise shown, in particular when it has no trigger. */
  lemma ContentPreferenceCases(post: Post, tv: map<string, string>)
    ensures var keys := PostTriggerKeys(post); var r := ContentPreference(post, tv);
      && (r == HideFeed <==> SomePreference(tv, keys, HideFeed))
      && (r == Cover <==> !SomePreference(tv, keys, HideFeed) && SomePreference(tv, keys, Cover))
      && (r == Show <==> !SomePreference(tv, keys, HideFeed) && !SomePreference(tv, keys, Cover))
      && (keys == [] ==> r == Show)
  {
    var keys := PostTriggerKeys(post);
    PreferencesIn(tv, keys, HideFeed);
    PreferencesIn(tv, keys, Cover);
  }

  // ----- Gallery -----

  /** The dictionary the Gallery uses: the profile's, or the normalised
      empty one when there is no profile dictionary. */
  function GalleryPreferences(profileTv: Option<map<string, string>>): (tv: map<string, string>)
    ensures profileTv.Some? ==> tv == profileTv.value
    ensures profileTv.None? ==> forall k :: k in tv <==> IsTriggerId(k)
    ensures profileTv.None? ==> forall k :: k in tv ==> tv[k] == Cover
  {
    NormalizedPreferencesCases(map[]);
    if profileTv.Some? then profileTv.value else NormalizedPreferences(map[])
  }

  /** `visiblePosts`: the posts whose preference is not `hideFeed`, in order. */
  function VisiblePosts(posts: seq<Post>, tv: map<string, string>): (r: seq<Post>)
    ensures forall p :: p in r <==> p in posts && ContentPreference(p, tv) != HideFeed
    ensures |r| <= |posts|
    ensures (forall i :: 0 <= i < |posts| ==> ContentPreference(posts[i], tv) != HideFeed) ==> r == posts
  {
    Filter(posts, p => ContentPreference(p, tv) != HideFeed)
  }

  /** `shouldCover`: the post has triggers, its preference is `cover` and
      the viewer has not revealed it. */
  predicate ShouldCover(post: Post, tv: map<string, string>, revealed: set<string>)
  {
    |PostTriggerKeys(post)| > 0 && ContentPreference(post, tv) == Cover && post.id !in revealed
  }

  /** A post is covered exactly when it has a trigger whose preference is
      `cover` (or missing), none whose preference is `hideFeed`, and it has
      not been revealed. */
  lemma CoverIff(post: Post, tv: map<string, string>, revealed: set<string>)
    ensures var keys := PostTriggerKeys(post);
      ShouldCover(post, tv, revealed) <==>
        SomePreference(tv, keys, Cover) && !SomePreference(tv, keys, HideFeed) && post.id !in revealed
  {
    ContentPreferenceCases(post, tv);
  }

  /** Without a profile dictionary no key is hidden and every key is covered. */
  lemma DefaultPreference(p: Post)
    ensures ContentPreference(p, GalleryPreferences(None)) != HideFeed
    ensures |PostTriggerKeys(p)| > 0 ==> ContentPreference(p, GalleryPreferences(None)) == Cover
  {
    var tv := GalleryPreferences(None);
    var keys := PostTriggerKeys(p);
    ContentPreferenceCases(p, tv);
    assert forall i :: 0 <= i < |keys| ==> PreferenceOf(tv, keys[i]) == Cover;
    if |keys| > 0 {
      assert PreferenceOf(tv, keys[0]) == Cover;
    }
  }

  /** Without a profile dictionary every post stays in the feed, and every
      post with a trigger is covered until revealed. */
  lemma DefaultPreferencesCoverAll(posts: seq<Post>, revealed: set<string>)
    ensures VisiblePosts(posts, GalleryPreferences(None)) == posts
    ensures forall p :: p in posts && |PostTriggerKeys(p)| > 0 && p.id !in revealed ==>
      ShouldCover(p, GalleryPreferences(None), revealed)
  {
    forall p | p in posts
      ensures ContentPreference(p, GalleryPreferences(None)) != HideFeed
      ensures |PostTriggerKeys(p)| > 0 ==> ContentPreference(p, GalleryPreferences(None)) == Cover
    {
      DefaultPreference(p);
    }
  }
}
