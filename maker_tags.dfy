/** `normalizeMakerTags`: the maker's own trigger tags arrive as an array,
    as one comma-separated string, or as anything else; they come out
    trimmed, lower-cased, non-empty and free of duplicates. */
module MakerTags {
  import opened Basics
  import opened Strings

  /** The `makerTags` field of a request body. Array entries are modelled as
      the strings `String(tag)` produces. */
  datatype TagInput = TagArray(tags: seq<string>) | TagString(text: string) | NotTags

  /** The raw entries before cleaning: an array as is, a string split on
      commas, anything else none. */
  function RawTags(input: TagInput): (r: seq<string>)
    ensures input.TagString? ==> r == Split(input.text, ',')
    ensures input.TagArray? ==> r == input.tags
    ensures input.NotTags? ==> r == []
  {
    match input
    case TagArray(tags) => tags
    case TagString(text) => Split(text, ',')
    case NotTags => []
  }

  /** A tag as it leaves normalisation. */
  predicate IsCleanTag(t: string)
  {
    t != "" && IsTrimmed(t) && IsLower(t)
  }

  /** The cleaned tag a raw entry yields. */
  function CleanTag(raw: string): string
  {
    ToLower(Trim(raw))
  }

  lemma CleanTagIsClean(raw: string)
    requires Trim(raw) != ""
    ensures IsCleanTag(CleanTag(raw))
  {
    ToLowerKeepsTrimmed(Trim(raw));
    ToLowerIsLower(Trim(raw));
  }

  /** Trim each entry, drop the empty ones and lower-case the rest. */
  function CleanTags(raw: seq<string>): (r: seq<string>)
    ensures forall i :: 0 <= i < |r| ==> IsCleanTag(r[i])
    decreases |raw|
  {
    if |raw| == 0 then []
    else
      var rest := CleanTags(raw[1..]);
      if Trim(raw[0]) == "" then rest
      else
        CleanTagIsClean(raw[0]);
        [CleanTag(raw[0])] + rest
  }

  /** Every non-blank entry survives cleaning. */
  lemma {:induction false} CleanTagsKeeps(raw: seq<string>, i: nat)
    requires i < |raw| && Trim(raw[i]) != ""
    ensures CleanTag(raw[i]) in CleanTags(raw)
    decreases |raw|
  {
    var rest := CleanTags(raw[1..]);
    var all := CleanTags(raw);
    if i == 0 {
      assert all == [CleanTag(raw[0])] + rest;
      assert all[0] == CleanTag(raw[0]);
    } else {
      assert raw[1..][i - 1] == raw[i];
      CleanTagsKeeps(raw[1..], i - 1);
      var k :| 0 <= k < |rest| && rest[k] == CleanTag(raw[i]);
      if Trim(raw[0]) == "" {
        assert all == rest;
      } else {
        assert all == [CleanTag(raw[0])] + rest;
        assert all[k + 1] == rest[k];
      }
    }
  }

  /** The index of the entry the `k`-th cleaned tag comes from. */
  lemma {:induction false} CleanTagsSource(raw: seq<string>, k: nat) returns (j: nat)
    requires k < |CleanTags(raw)|
    ensures j < |raw| && Trim(raw[j]) != "" && CleanTags(raw)[k] == CleanTag(raw[j])
    decreases |raw|
  {
    var tail := raw[1..];
    var rest := CleanTags(tail);
    if Trim(raw[0]) == "" {
      assert CleanTags(raw) == rest;
      var j' := CleanTagsSource(tail, k);
      assert tail[j'] == raw[j' + 1];
      j := j' + 1;
    } else if k == 0 {
      j := 0;
    } else {
      assert CleanTags(raw) == [CleanTag(raw[0])] + rest;
      assert CleanTags(raw)[k] == rest[k - 1];
      var j' := CleanTagsSource(tail, k - 1);
      assert tail[j'] == raw[j' + 1];
      j := j' + 1;
    }
  }

  /** `normalizeMakerTags(makerTags)`. */
  function NormalizeMakerTags(input: TagInput): (r: seq<string>)
    ensures NoDuplicates(r)
    ensures forall i :: 0 <= i < |r| ==> IsCleanTag(r[i])
  {
    Dedup(CleanTags(RawTags(input)))
  }

  /** Every non-blank raw entry is represented, and nothing else appears. */
  lemma NormalizeMakerTagsCoverage(input: TagInput)
    ensures var raw := RawTags(input); var r := NormalizeMakerTags(input);
      && (forall i :: 0 <= i < |raw| && Trim(raw[i]) != "" ==> CleanTag(raw[i]) in r)
      && (forall i :: 0 <= i < |r| ==> exists j :: 0 <= j < |raw| && Trim(raw[j]) != "" && r[i] == CleanTag(raw[j]))
  {
    var raw := RawTags(input);
    var c := CleanTags(raw);
    var r := NormalizeMakerTags(input);
    forall i | 0 <= i < |raw| && Trim(raw[i]) != "" ensures CleanTag(raw[i]) in r {
      CleanTagsKeeps(raw, i);
    }
    forall i | 0 <= i < |r|
      ensures exists j :: 0 <= j < |raw| && Trim(raw[j]) != "" && r[i] == CleanTag(raw[j])
    {
      var k :| 0 <= k < |c| && c[k] == r[i];
      var j := CleanTagsSource(raw, k);
    }
  }

  /** A string is the array of its comma-separated pieces. */
  lemma StringTagsAreSplit(text: string)
    ensures NormalizeMakerTags(TagString(text)) == NormalizeMakerTags(TagArray(Split(text, ',')))
  {
  }

  /** Anything but an array or a string yields no tags. */
  lemma OtherInputNoTags()
    ensures NormalizeMakerTags(NotTags) == []
  {
  }

  lemma ToLowerOfLower(s: string)
    requires IsLower(s)
    ensures ToLower(s) == s
  {
  }

  lemma {:induction false} CleanTagsOfClean(tags: seq<string>)
    requires forall i :: 0 <= i < |tags| ==> IsCleanTag(tags[i])
    ensures CleanTags(tags) == tags
    decreases |tags|
  {
    if |tags| > 0 {
      var head := tags[0];
      assert IsCleanTag(head);
      CleanTagsOfClean(tags[1..]);
      TrimOfTrimmed(head);
      ToLowerOfLower(head);
      assert Trim(head) != "";
      assert CleanTags(tags) == [CleanTag(head)] + CleanTags(tags[1..]);
      assert tags == [head] + tags[1..];
    }
  }

  /** Normalising an already normalised tag list changes nothing. */
  lemma NormalizeMakerTagsIdempotent(input: TagInput)
    ensures NormalizeMakerTags(TagArray(NormalizeMakerTags(input))) == NormalizeMakerTags(input)
  {
    var r := NormalizeMakerTags(input);
    CleanTagsOfClean(r);
    DedupOfNoDuplicates(r);
  }

  /** Tags joined with commas come back unchanged when none holds a comma. */
  lemma NormalizeMakerTagsJoined(tags: seq<string>)
    requires |tags| >= 1
    requires forall i :: 0 <= i < |tags| ==> IsCleanTag(tags[i]) && ',' !in tags[i]
    requires NoDuplicates(tags)
    ensures NormalizeMakerTags(TagString(Join(tags, ','))) == tags
  {
    SplitJoin(tags, ',');
    CleanTagsOfClean(tags);
    DedupOfNoDuplicates(tags);
  }
}
