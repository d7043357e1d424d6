/** Request-level helpers of the backend: `parseImageDataUrl`, the
    brace-slice step of `parseGeminiJson` and `createDecisionMessage`. */
module Requests {
  import opened Basics
  import opened Strings

  // ----- parseImageDataUrl -----

  /** The `image` field of a request body: a string, or anything else. */
  datatype ImageInput = ImageText(text: string) | NotText

  /** What a matching data URL yields. The base64 payload is kept as text:
      decoding it into a buffer is outside the model. */
  datatype ParsedImage = ParsedImage(mimeType: string, base64: string)

  const NotTextError := "Image moet een base64 data-URL string zijn."
  const InvalidDataUrlError := "Image moet een geldige base64 data-URL zijn (png/jpg/webp)."

  const DataUrlStart := "data:image/"
  const Base64Marker := ";base64,"
  /** The alternatives of `(png|jpe?g|webp)`. */
  const ImageFormats: seq<string> := ["png", "jpg", "jpeg", "webp"]

  /** The character class `[A-Za-z0-9+/=]`. */
  predicate IsBase64Char(c: char)
  {
    ('A' <= c <= 'Z') || ('a' <= c <= 'z') || ('0' <= c <= '9') || c == '+' || c == '/' || c == '='
  }

  /** `[A-Za-z0-9+/=]+`. */
  predicate IsBase64Text(s: string)
  {
    |s| > 0 && forall i :: 0 <= i < |s| ==> IsBase64Char(s[i])
  }

  /** `s` matches `^data:image\/(png|jpe?g|webp);base64,([A-Za-z0-9+/=]+)$`
      with the two groups `format` and `payload`. */
  predicate MatchesDataUrl(s: string, format: string, payload: string)
  {
    format in ImageFormats && IsBase64Text(payload) && s == DataUrlStart + format + Base64Marker + payload
  }

  /** A string is the concatenation of its slices at any three cut points. */
  lemma Reassemble(s: string, a: nat, b: nat, c: nat)
    requires a <= b <= c <= |s|
    ensures s == s[..a] + s[a..b] + s[b..c] + s[c..]
  {
  }

  /** `parseImageDataUrl(image)`: a non-string is refused, a string that
      does not match the pattern is refused, and a match gives the MIME type
      `image/<format>` and the payload. */
  function ParseImageDataUrl(input: ImageInput): (r: Result<ParsedImage, string>)
    ensures input.NotText? ==> r == Err(NotTextError)
    ensures input.ImageText? && r.Err? ==> r.error == InvalidDataUrlError
    ensures r.Ok? ==> input.ImageText? && |r.value.mimeType| > 6 && r.value.mimeType[..6] == "image/" &&
                      MatchesDataUrl(input.text, r.value.mimeType[6..], r.value.base64)
  {
    match input
    case NotText => Err(NotTextError)
    case ImageText(s) =>
      var n := |DataUrlStart|;
      if |s| < n || s[..n] != DataUrlStart then Err(InvalidDataUrlError)
      else
        var k := IndexOf(s[n..], ';');
        if k == -1 || |s| < n + k + |Base64Marker| then Err(InvalidDataUrlError)
        else
          var m := n + k + |Base64Marker|;
          var format := s[n..n + k];
          var payload := s[m..];
          if format !in ImageFormats || s[n + k..m] != Base64Marker || !IsBase64Text(payload) then
            Err(InvalidDataUrlError)
          else
            Reassemble(s, n, n + k, m);
            assert ("image/" + format)[6..] == format;
            Ok(ParsedImage("image/" + format, payload))
  }

  /** Every matching data URL is accepted, with its own groups: together with
      the contract above, `ParseImageDataUrl` accepts exactly the matches. */
  lemma ParseImageDataUrlAcceptsMatches(format: string, payload: string)
    requires format in ImageFormats && IsBase64Text(payload)
    ensures ParseImageDataUrl(ImageText(DataUrlStart + format + Base64Marker + payload)) ==
            Ok(ParsedImage("image/" + format, payload))
  {
    var s := DataUrlStart + format + Base64Marker + payload;
    DataUrlSlices(format, payload);
  }

  /** The cut points `ParseImageDataUrl` finds in a matching data URL. */
  lemma DataUrlSlices(format: string, payload: string)
    requires format in ImageFormats
    ensures var s := DataUrlStart + format + Base64Marker + payload;
      var n := |DataUrlStart|;
      && s[..n] == DataUrlStart
      && IndexOf(s[n..], ';') == |format|
      && s[n..n + |format|] == format
      && s[n + |format|..n + |format| + |Base64Marker|] == Base64Marker
      && s[n + |format| + |Base64Marker|..] == payload
  {
    var s := DataUrlStart + format + Base64Marker + payload;
    var n := |DataUrlStart|;
    FourPartSlices(DataUrlStart, format, Base64Marker, payload);
    var after := "base64," + payload;
    assert Base64Marker == [';'] + "base64,";
    assert s[n..] == format + [';'] + after;
    assert ';' !in format;
    IndexOfFirstSeparator(format, ';', after);
  }

  /** The four parts of a concatenation, cut back out. */
  lemma FourPartSlices<T>(a: seq<T>, b: seq<T>, c: seq<T>, d: seq<T>)
    ensures var s := a + b + c + d;
      && s[..|a|] == a
      && s[|a|..|a| + |b|] == b
      && s[|a| + |b|..|a| + |b| + |c|] == c
      && s[|a| + |b| + |c|..] == d
      && s[|a|..] == b + c + d
  {
  }

  // ----- parseGeminiJson -----

  /** Some `{` comes before some `}`. */
  predicate HasBracedSpan(text: string)
  {
    exists i, j :: 0 <= i < j < |text| && text[i] == '{' && text[j] == '}'
  }

  /** With no `{`, no `}`, or the last `}` not after the first `{`, no
      `{` comes before a `}`. */
  lemma NoBracedSpan(text: string)
    requires var first := IndexOf(text, '{'); var last := LastIndexOf(text, '}');
      first == -1 || last == -1 || last <= first
    ensures !HasBracedSpan(text)
  {
    var first := IndexOf(text, '{');
    var last := LastIndexOf(text, '}');
    forall i, j | 0 <= i < j < |text| && text[i] == '{'
      ensures text[j] != '}'
    {
      assert text[i] in text;
      if last != -1 && j > last {
        assert text[last + 1..][j - last - 1] == text[j];
      }
    }
  }

  /** The text `parseGeminiJson` hands to `JSON.parse`: from the first `{`
      to the last `}`, or nothing when the text is empty, either brace is
      missing, or the last `}` is not after the first `{`. */
  function ExtractJsonObject(text: string): (r: Option<string>)
    ensures r.None? <==> !HasBracedSpan(text)
    ensures r.Some? ==>
      var first := IndexOf(text, '{');
      var t := r.value;
      && 0 <= first && first + |t| <= |text| && t == text[first..first + |t|]
      && |t| >= 2 && t[0] == '{' && t[|t| - 1] == '}'
      && '{' !in text[..first] && '}' !in text[first + |t|..]
  {
    if text == "" then None
    else
      var first := IndexOf(text, '{');
      var last := LastIndexOf(text, '}');
      if first == -1 || last == -1 || last <= first then
        NoBracedSpan(text);
        None
      else
        assert text[first] == '{' && text[last] == '}';
        Some(text[first..last + 1])
  }

  // ----- createDecisionMessage -----

  const ApprovedTitle := "Je foto is goedgekeurd"
  const RejectedTitle := "Je foto is niet goedgekeurd"

  /** The message a moderator's decision sends to the maker. */
  datatype DecisionMessage = DecisionMessage(
    kind: string, decision: string, title: string, message: string, reasons: seq<string>,
    unread: bool, resolved: bool, canPublishNow: bool, canSaveDraft: bool)

  /** `createDecisionMessage`: an unread, unresolved moderation message whose
      title and both actions depend only on whether the decision approves. */
  function CreateDecisionMessage(decision: string, message: string, reasons: seq<string>): (m: DecisionMessage)
    ensures m.kind == "moderation_decision" && m.decision == decision
    ensures m.message == message && m.reasons == reasons
    ensures m.unread && !m.resolved
    ensures m.canPublishNow <==> decision == "approved"
    ensures m.canSaveDraft <==> decision == "approved"
    ensures m.title == ApprovedTitle <==> decision == "approved"
    ensures m.title == RejectedTitle <==> decision != "approved"
  {
    var approved := decision == "approved";
    DecisionMessage("moderation_decision", decision, if approved then ApprovedTitle else RejectedTitle,
                    message, reasons, true, false, approved, approved)
  }
}
