/** The web client's other pure helpers: profile defaults, theme colours,
    the checks and trigger list of publishing, and the Discover tab's
    interleaved, searched list of posts and makers. */
module Client {
  import opened Basics
  import opened Strings
  import opened TriggerVisibility

  // ----- normalizeProfileData -----

  /** `profileData.preferences` as far as it is read; a missing dictionary
      is the empty map and a missing theme the empty string. */
  datatype PreferencesInput = PreferencesInput(triggerVisibility: map<string, string>, theme: string)

  /** A stored profile. Missing strings are ""; `None` is `null` or
      missing; `roles` and `themes` are `None` when they are not arrays. */
  datatype ProfileInput = ProfileInput(
    uid: Option<string>, displayName: string, bio: string,
    roles: Option<seq<string>>, themes: Option<seq<string>>, avatar: string,
    linkedAgencyName: Option<string>, linkedCompanyName: Option<string>,
    linkedAgencyLink: Option<string>, linkedCompanyLink: Option<string>,
    preferences: PreferencesInput)

  /** The profile the client works with. */
  datatype Profile = Profile(
    uid: Option<string>, displayName: string, bio: string,
    roles: seq<string>, themes: seq<string>, avatar: string,
    linkedAgencyName: Option<string>, linkedCompanyName: Option<string>,
    linkedAgencyLink: string, linkedCompanyLink: string,
    triggerVisibility: map<string, string>, theme: string)

  const DefaultDisplayName := "Onbekende maker"
  const DefaultBio := "Nog geen bio toegevoegd."
  const DefaultRoles := ["fan"]
  const DefaultThemes := ["General"]
  const DefaultTheme := "light"
  const AvatarService := "https://api.dicebear.com/7.x/avataaars/svg?seed="

  /** `buildDefaultAvatar`; `encode` is `encodeURIComponent`. */
  function DefaultAvatar(seed: string, encode: string -> string): (r: string)
    ensures |r| >= |AvatarService| && r[..|AvatarService|] == AvatarService
  {
    AvatarService + encode(if seed != "" then seed else "artes")
  }

  /** The list when it is a non-empty array, else the default. */
  function NonEmptyOr(s: Option<seq<string>>, default: seq<string>): (r: seq<string>)
    ensures s.Some? && s.value != [] ==> r == s.value
    ensures !(s.Some? && s.value != []) ==> r == default
  {
    if s.Some? && s.value != [] then s.value else default
  }

  function OrElse(s: string, default: string): (r: string)
    ensures s != "" ==> r == s
    ensures s == "" ==> r == default
  {
    if s != "" then s else default
  }

  /** The avatar seed `uid || displayName || fallbackSeed`. */
  function ProfileSeed(p: ProfileInput, fallbackSeed: string): (seed: string)
    ensures p.uid.Some? && p.uid.value != "" ==> seed == p.uid.value
    ensures !(p.uid.Some? && p.uid.value != "") && p.displayName != "" ==> seed == p.displayName
    ensures !(p.uid.Some? && p.uid.value != "") && p.displayName == "" ==> seed == fallbackSeed
  {
    if p.uid.Some? && p.uid.value != "" then p.uid.value
    else if p.displayName != "" then p.displayName
    else fallbackSeed
  }

  /** `normalizeProfileData`. */
  function NormalizeProfileData(p: ProfileInput, fallbackSeed: string, encode: string -> string): (r: Profile)
    ensures r.roles != [] && r.themes != [] && r.displayName != "" && r.bio != "" && r.avatar != "" && r.theme != ""
    ensures p.roles.Some? && p.roles.value != [] ==> r.roles == p.roles.value
    ensures !(p.roles.Some? && p.roles.value != []) ==> r.roles == DefaultRoles
    ensures p.themes.Some? && p.themes.value != [] ==> r.themes == p.themes.value
    ensures !(p.themes.Some? && p.themes.value != []) ==> r.themes == DefaultThemes
    ensures p.displayName != "" ==> r.displayName == p.displayName
    ensures p.displayName == "" ==> r.displayName == DefaultDisplayName
    ensures p.preferences.theme != "" ==> r.theme == p.preferences.theme
    ensures p.preferences.theme == "" ==> r.theme == DefaultTheme
    ensures r.triggerVisibility == NormalizedPreferences(p.preferences.triggerVisibility)
    ensures forall k :: IsTriggerId(k) ==> k in r.triggerVisibility && IsPreference(r.triggerVisibility[k])
    ensures r.uid == p.uid && r.linkedAgencyName == p.linkedAgencyName && r.linkedCompanyName == p.linkedCompanyName
    ensures p.bio != "" ==> r.bio == p.bio
    ensures p.bio == "" ==> r.bio == DefaultBio
    ensures p.avatar != "" ==> r.avatar == p.avatar
    ensures p.avatar == "" ==> r.avatar == DefaultAvatar(ProfileSeed(p, fallbackSeed), encode)
    ensures r.linkedAgencyLink == (if p.linkedAgencyLink.Some? then p.linkedAgencyLink.value else "")
    ensures r.linkedCompanyLink == (if p.linkedCompanyLink.Some? then p.linkedCompanyLink.value else "")
  {
    var seed := ProfileSeed(p, fallbackSeed);
    NormalizedPreferencesCases(p.preferences.triggerVisibility);
    Profile(
      p.uid,
      OrElse(p.displayName, DefaultDisplayName),
      OrElse(p.bio, DefaultBio),
      NonEmptyOr(p.roles, DefaultRoles),
      NonEmptyOr(p.themes, DefaultThemes),
      OrElse(p.avatar, DefaultAvatar(seed, encode)),
      p.linkedAgencyName,
      p.linkedCompanyName,
      if p.linkedAgencyLink.Some? then p.linkedAgencyLink.value else "",
      if p.linkedCompanyLink.Some? then p.linkedCompanyLink.value else "",
      NormalizedPreferences(p.preferences.triggerVisibility),
      OrElse(p.preferences.theme, DefaultTheme))
  }

  /** A normalised profile as it is stored again. */
  function Stored(q: Profile): ProfileInput
  {
    ProfileInput(q.uid, q.displayName, q.bio, Some(q.roles), Some(q.themes), q.avatar,
                 q.linkedAgencyName, q.linkedCompanyName, Some(q.linkedAgencyLink), Some(q.linkedCompanyLink),
                 PreferencesInput(q.triggerVisibility, q.theme))
  }

  /** Normalising a normalised profile again changes nothing, whatever the
      fallback seed. */
  lemma NormalizeProfileIdempotent(p: ProfileInput, fallbackSeed: string, seed2: string, encode: string -> string)
    ensures var q := NormalizeProfileData(p, fallbackSeed, encode);
      NormalizeProfileData(Stored(q), seed2, encode) == q
  {
    NormalizeIdempotent(p.preferences.triggerVisibility);
  }

  // ----- themeColor -----

  const Palette := ["#8B5CF6", "#EC4899", "#10B981", "#06B6D4", "#F59E0B", "#3B82F6", "#F97316"]

  /** The sum of the character codes of `s` (the `reduce` over `split('')`). */
  function CodeSum(s: string): nat
  {
    if s == [] then 0 else CodeSum(s[..|s| - 1]) + s[|s| - 1] as int
  }

  /** JavaScript's `%` on a non-negative divisor: the sign of the dividend. */
  function JsRem(a: int, b: int): (r: int)
    requires b > 0
    ensures -b < r < b
    ensures a >= 0 ==> r == a % b
    ensures a < 0 ==> r <= 0 && r == -((-a) % b)
  {
    if a >= 0 then a % b else -((-a) % b)
  }

  /** `themeColor`: a palette entry, or `None` for `undefined` (a negative
      fallback index with a non-zero remainder). */
  function ThemeColor(themeLabel: string, fallbackIndex: int): (r: Option<string>)
    ensures r.Some? ==> r.value in Palette
    ensures themeLabel != "" ==> r == Some(Palette[CodeSum(themeLabel) % |Palette|])
    ensures themeLabel == "" && fallbackIndex >= 0 ==> r == Some(Palette[fallbackIndex % |Palette|])
    ensures r.None? <==> themeLabel == "" && fallbackIndex < 0 && (-fallbackIndex) % |Palette| != 0
  {
    if themeLabel == "" then
      var i := JsRem(fallbackIndex, |Palette|);
      // `palette[-0]` is `palette[0]`
      if i >= 0 then Some(Palette[i]) else None
    else
      // the sum is never negative, so `Math.abs` leaves it unchanged
      var hash := CodeSum(themeLabel);
      Some(Palette[JsRem(hash, |Palette|)])
  }

  lemma {:induction false} CodeSumAppend(a: string, b: string)
    ensures CodeSum(a + b) == CodeSum(a) + CodeSum(b)
    decreases |b|
  {
    if b == [] {
      assert a + b == a;
    } else {
      var init := b[..|b| - 1];
      assert (a + b)[..|a + b| - 1] == a + init;
      assert (a + b)[|a + b| - 1] == b[|b| - 1];
      CodeSumAppend(a, init);
    }
  }

  /** The colour depends only on which characters a label has, not on
      their order: swapping two halves of a label keeps its colour. */
  lemma ThemeColorRotate(a: string, b: string, fallbackIndex: int)
    ensures ThemeColor(a + b, fallbackIndex) == ThemeColor(b + a, fallbackIndex)
  {
    CodeSumAppend(a, b);
    CodeSumAppend(b, a);
    if a + b == "" {
      assert a == "" && b == "";
    }
    else {
      assert |b + a| == |a + b|;
    }
  }

  // ----- handlePublish -----

  /** The upload form's state when "publish" is pressed. `hasImage` is
      whether an image is set; an `outcome` of "" is `null`. */
  datatype PublishForm = PublishForm(
    hasImage: bool, title: string, selectedStyles: seq<string>, outcome: string,
    appliedTriggers: seq<string>, makerTags: seq<string>, suggestedTriggers: seq<string>)

  /** The trigger fields of the published post. */
  datatype Publication = Publication(
    appliedTriggers: seq<string>, triggers: seq<string>, sensitive: bool, outcome: string)

  const ImageError := "Voeg een afbeelding toe."
  const TitleError := "Titel is verplicht."
  const StylesError := "Kies minstens \U{e9}\U{e9}n thema."
  const ModerationError := "Deze publicatie is geblokkeerd door de safety check."

  /** `validationErrors`: one entry per failed check. */
  function PublishErrors(f: PublishForm): (errors: map<string, string>)
    ensures "image" in errors <==> !f.hasImage
    ensures "title" in errors <==> Trim(f.title) == ""
    ensures "styles" in errors <==> f.selectedStyles == []
    ensures "moderation" in errors <==> f.outcome == "forbidden"
    ensures forall k :: k in errors ==> k in {"image", "title", "styles", "moderation"}
    ensures errors == map[] <==> f.hasImage && Trim(f.title) != "" && f.selectedStyles != [] && f.outcome != "forbidden"
  {
    var e0: map<string, string> := map[];
    var e1 := if !f.hasImage then e0["image" := ImageError] else e0;
    var e2 := if Trim(f.title) == "" then e1["title" := TitleError] else e1;
    var e3 := if f.selectedStyles == [] then e2["styles" := StylesError] else e2;
    var e4 := if f.outcome == "forbidden" then e3["moderation" := ModerationError] else e3;
    assert (e4 == map[]) == (e4.Keys == {});
    e4
  }

  /** The label of the last `TRIGGERS` entry among the first `n` with id
      `id`, or `id` when there is none (what the `Map` of id to label and
      `getTriggerLabel` give). */
  function LabelFrom(id: string, n: nat): (r: string)
    requires n <= |Triggers|
    ensures (forall j :: 0 <= j < n ==> Triggers[j].id != id) ==> r == id
    ensures (exists j :: 0 <= j < n && Triggers[j].id == id) ==>
      exists j :: 0 <= j < n && Triggers[j].id == id && r == Triggers[j].text
  {
    if n == 0 then id
    else if Triggers[n - 1].id == id then Triggers[n - 1].text
    else LabelFrom(id, n - 1)
  }

  /** `getTriggerLabel`. */
  function TriggerLabel(id: string): (r: string)
    ensures !IsTriggerId(id) ==> r == id
    ensures IsTriggerId(id) ==> exists j :: 0 <= j < |Triggers| && Triggers[j].id == id && r == Triggers[j].text
  {
    LabelFrom(id, |Triggers|)
  }

  /** The label the client stores for a trigger id resolves back to that id. */
  lemma LabelResolvesToId(id: string)
    requires IsTriggerId(id)
    ensures ResolveTriggerKey(TriggerLabel(id)) == id
  {
    var j :| 0 <= j < |Triggers| && Triggers[j].id == id && TriggerLabel(id) == Triggers[j].text;
    ResolveTriggerLabel(j);
  }

  function Labels(ids: seq<string>): (r: seq<string>)
    ensures |r| == |ids|
    ensures forall i :: 0 <= i < |ids| ==> r[i] == TriggerLabel(ids[i])
  {
    seq(|ids|, i requires 0 <= i < |ids| => TriggerLabel(ids[i]))
  }

  /** The triggers a publication carries: the applied triggers when there
      are any, else the maker's own tags; with suggestions added (each once)
      when the maker applies them. */
  function FinalTriggers(f: PublishForm, applySuggestions: bool): (r: seq<string>)
    ensures var base := if f.appliedTriggers != [] then f.appliedTriggers else f.makerTags;
      && (!applySuggestions ==> r == base)
      && (applySuggestions ==> NoDuplicates(r))
      && (applySuggestions ==> forall t :: t in r <==> t in base || t in f.suggestedTriggers)
  {
    var base := if f.appliedTriggers != [] then f.appliedTriggers else f.makerTags;
    if applySuggestions then
      var r := Dedup(base + f.suggestedTriggers);
      assert forall t :: t in base || t in f.suggestedTriggers ==> t in base + f.suggestedTriggers;
      r
    else base
  }

  /** `handlePublish`: the validation errors, or the trigger fields of the
      post it passes to `publishPost`. */
  function Publish(f: PublishForm, applySuggestions: bool): (r: Result<Publication, map<string, string>>)
    ensures r.Err? <==> !f.hasImage || Trim(f.title) == "" || f.selectedStyles == [] || f.outcome == "forbidden"
    ensures r.Err? ==> r.error == PublishErrors(f)
    ensures r.Ok? ==> r.value.appliedTriggers == FinalTriggers(f, applySuggestions)
    ensures r.Ok? ==> (r.value.sensitive <==> r.value.appliedTriggers != [])
    ensures r.Ok? ==> r.value.triggers == Labels(r.value.appliedTriggers)
    ensures r.Ok? ==> r.value.outcome == if f.outcome == "" then "unchecked" else f.outcome
  {
    var errors := PublishErrors(f);
    if errors != map[] then Err(errors)
    else
      var finalTriggers := FinalTriggers(f, applySuggestions);
      Ok(Publication(finalTriggers, Labels(finalTriggers), |finalTriggers| > 0,
                     if f.outcome == "" then "unchecked" else f.outcome))
  }

  /** A post the moderation service forbade is never published. */
  lemma ForbiddenNeverPublished(f: PublishForm, applySuggestions: bool)
    requires f.outcome == "forbidden"
    ensures Publish(f, applySuggestions).Err?
    ensures Publish(f, applySuggestions).error["moderation"] == ModerationError
  {
  }

  /** Whatever the feed reads from a published post, its stored labels add
      no trigger keys beyond its trigger ids. */
  lemma {:induction false} PublishedLabelsResolve(ids: seq<string>)
    requires forall i :: 0 <= i < |ids| ==> IsTriggerId(ids[i])
    ensures ResolveAll(Labels(ids)) == ids
  {
    forall i | 0 <= i < |ids|
      ensures ResolveAll(Labels(ids))[i] == ids[i]
    {
      LabelResolvesToId(ids[i]);
    }
  }

  // ----- Discover -----

  /** A maker card: the user fields Discover reads. */
  datatype Member = Member(uid: string, displayName: string)

  datatype FeedItem = PostItem(post: Post) | UserItem(user: Member)

  /** What the `i`-th round of the loop pushes. */
  function Round(posts: seq<Post>, users: seq<Member>, i: nat): seq<FeedItem>
  {
    (if i < |posts| then [PostItem(posts[i])] else []) + (if i < |users| then [UserItem(users[i])] else [])
  }

  /** The list after `n` rounds. */
  function MixedUpTo(posts: seq<Post>, users: seq<Member>, n: nat): seq<FeedItem>
  {
    if n == 0 then [] else MixedUpTo(posts, users, n - 1) + Round(posts, users, n - 1)
  }

  function Max(a: int, b: int): int
  {
    if a < b then b else a
  }

  function Mixed(posts: seq<Post>, users: seq<Member>): seq<FeedItem>
  {
    MixedUpTo(posts, users, Max(|posts|, |users|))
  }

  function PostsOf(items: seq<FeedItem>): seq<Post>
  {
    if items == [] then []
    else PostsOf(items[..|items| - 1]) + (if items[|items| - 1].PostItem? then [items[|items| - 1].post] else [])
  }

  function UsersOf(items: seq<FeedItem>): seq<Member>
  {
    if items == [] then []
    else UsersOf(items[..|items| - 1]) + (if items[|items| - 1].UserItem? then [items[|items| - 1].user] else [])
  }

  lemma {:induction false} PostsOfAppend(a: seq<FeedItem>, b: seq<FeedItem>)
    ensures PostsOf(a + b) == PostsOf(a) + PostsOf(b)
    ensures UsersOf(a + b) == UsersOf(a) + UsersOf(b)
    decreases |b|
  {
    if b == [] {
      assert a + b == a;
    } else {
      var init := b[..|b| - 1];
      assert (a + b)[..|a + b| - 1] == a + init;
      assert (a + b)[|a + b| - 1] == b[|b| - 1];
      PostsOfAppend(a, init);
    }
  }

  /** Appending one item adds its post or its maker. */
  lemma PostsOfSnoc(a: seq<FeedItem>, x: FeedItem)
    ensures PostsOf(a + [x]) == PostsOf(a) + (if x.PostItem? then [x.post] else [])
    ensures UsersOf(a + [x]) == UsersOf(a) + (if x.UserItem? then [x.user] else [])
  {
    assert (a + [x])[..|a|] == a;
  }

  /** The first `n` elements of `s`, or all of them. */
  function Take<T>(s: seq<T>, n: nat): (r: seq<T>)
    ensures n >= |s| ==> r == s
    ensures n < |s| ==> r == s[..n]
  {
    if n < |s| then s[..n] else s
  }

  lemma TakeNext<T>(s: seq<T>, n: nat)
    ensures Take(s, n + 1) == Take(s, n) + if n < |s| then [s[n]] else []
  {
    if n < |s| {
      assert s[..n + 1] == s[..n] + [s[n]];
    }
  }

  /** Round `n - 1` adds post `n - 1` and maker `n - 1`, when they exist. */
  lemma RoundStep(posts: seq<Post>, users: seq<Member>, n: nat)
    requires n > 0
    ensures PostsOf(MixedUpTo(posts, users, n)) ==
            PostsOf(MixedUpTo(posts, users, n - 1)) + (if n - 1 < |posts| then [posts[n - 1]] else [])
    ensures UsersOf(MixedUpTo(posts, users, n)) ==
            UsersOf(MixedUpTo(posts, users, n - 1)) + (if n - 1 < |users| then [users[n - 1]] else [])
  {
    var i := n - 1;
    var prev := MixedUpTo(posts, users, i);
    assert MixedUpTo(posts, users, n) == prev + Round(posts, users, i);
    if i < |posts| && i < |users| {
      assert prev + Round(posts, users, i) == prev + [PostItem(posts[i])] + [UserItem(users[i])];
      PostsOfSnoc(prev, PostItem(posts[i]));
      PostsOfSnoc(prev + [PostItem(posts[i])], UserItem(users[i]));
    } else if i < |posts| {
      PostsOfSnoc(prev, PostItem(posts[i]));
    } else if i < |users| {
      PostsOfSnoc(prev, UserItem(users[i]));
    } else {
      assert prev + Round(posts, users, i) == prev;
    }
  }

  lemma {:induction false} MixedUpToPosts(posts: seq<Post>, users: seq<Member>, n: nat)
    ensures PostsOf(MixedUpTo(posts, users, n)) == Take(posts, n)
  {
    if n > 0 {
      MixedUpToPosts(posts, users, n - 1);
      RoundStep(posts, users, n);
      TakeNext(posts, n - 1);
    }
  }

  lemma {:induction false} MixedUpToUsers(posts: seq<Post>, users: seq<Member>, n: nat)
    ensures UsersOf(MixedUpTo(posts, users, n)) == Take(users, n)
  {
    if n > 0 {
      MixedUpToUsers(posts, users, n - 1);
      RoundStep(posts, users, n);
      TakeNext(users, n - 1);
    }
  }

  /** The interleaved list holds every post and every maker, each in its
      own order. */
  lemma MixedKeepsBoth(posts: seq<Post>, users: seq<Member>)
    ensures PostsOf(Mixed(posts, users)) == posts
    ensures UsersOf(Mixed(posts, users)) == users
  {
    MixedUpToPosts(posts, users, Max(|posts|, |users|));
    MixedUpToUsers(posts, users, Max(|posts|, |users|));
  }

  /** While both lists last, post `i` is at position `2i` and maker `i`
      right after it. */
  lemma {:induction false} MixedAlternates(posts: seq<Post>, users: seq<Member>, n: nat)
    requires n <= |posts| && n <= |users|
    ensures |MixedUpTo(posts, users, n)| == 2 * n
    ensures forall i :: 0 <= i < n ==>
      MixedUpTo(posts, users, n)[2 * i] == PostItem(posts[i]) &&
      MixedUpTo(posts, users, n)[2 * i + 1] == UserItem(users[i])
  {
    if n > 0 {
      MixedAlternates(posts, users, n - 1);
      var prev := MixedUpTo(posts, users, n - 1);
      assert MixedUpTo(posts, users, n) == prev + [PostItem(posts[n - 1]), UserItem(users[n - 1])];
    }
  }

  /** The search test: the post's title or the maker's name contains the
      query, both lower-cased. */
  predicate MatchesSearch(item: FeedItem, search: string)
  {
    Contains(ToLower(if item.PostItem? then item.post.title else item.user.displayName), ToLower(search))
  }

  /** `items.filter(...)` with the search test. */
  function FilterItems(items: seq<FeedItem>, search: string): (r: seq<FeedItem>)
    ensures forall x :: x in r <==> x in items && MatchesSearch(x, search)
  {
    Filter(items, x => MatchesSearch(x, search))
  }

  /** The same test on posts alone. */
  function FilterPosts(posts: seq<Post>, search: string): seq<Post>
  {
    Filter(posts, p => MatchesSearch(PostItem(p), search))
  }

  lemma {:induction false} FilterPostsOf(items: seq<FeedItem>, search: string)
    ensures PostsOf(FilterItems(items, search)) == FilterPosts(PostsOf(items), search)
    decreases |items|
  {
    if items != [] {
      var init := items[..|items| - 1];
      var last := items[|items| - 1];
      var tail := if MatchesSearch(last, search) then [last] else [];
      assert items == init + [last];
      FilterAppend(init, [last], x => MatchesSearch(x, search));
      assert Filter([last], x => MatchesSearch(x, search)) == tail;
      assert FilterItems(items, search) == FilterItems(init, search) + tail;
      FilterPostsOf(init, search);
      PostsOfAppend(FilterItems(init, search), tail);
      assert tail == [] || tail[..0] == [];
      var ps := PostsOf(init);
      if last.PostItem? {
        assert PostsOf(items) == ps + [last.post];
        assert (ps + [last.post])[..|ps|] == ps;
        FilterAppend(ps, [last.post], p => MatchesSearch(PostItem(p), search));
        assert Filter([last.post], p => MatchesSearch(PostItem(p), search)) ==
          (if MatchesSearch(PostItem(last.post), search) then [last.post] else []);
      } else {
        assert PostsOf(items) == ps;
      }
    }
  }

  /** `mixedContent`: on the "all" tab, the posts and makers interleaved
      and then narrowed to those matching the search. */
  method MixedContent(tab: string, users: seq<Member>, posts: seq<Post>, search: string) returns (res: seq<FeedItem>)
    ensures tab != "all" ==> res == []
    ensures tab == "all" ==> res == FilterItems(Mixed(posts, users), search)
  {
    if tab != "all" {
      return [];
    }
    var mixed: seq<FeedItem> := [];
    var max := Max(|users|, |posts|);
    for i := 0 to max
      invariant mixed == MixedUpTo(posts, users, i)
    {
      if i < |posts| {
        mixed := mixed + [PostItem(posts[i])];
      }
      if i < |users| {
        mixed := mixed + [UserItem(users[i])];
      }
    }
    res := FilterItems(mixed, search);
  }

  /** The posts Discover lists are exactly the posts whose title matches,
      in feed order. */
  lemma MixedContentPosts(posts: seq<Post>, users: seq<Member>, search: string)
    ensures PostsOf(FilterItems(Mixed(posts, users), search)) == FilterPosts(posts, search)
  {
    FilterPostsOf(Mixed(posts, users), search);
    MixedKeepsBoth(posts, users);
  }
}
