/**
 * The TikTok preview route: it reads and trims the submitted URL, accepts
 * only `http(s)://[www.]tiktok.com/` addresses (case-insensitively), asks
 * TikTok's oEmbed endpoint about it, checks the answer's shape and renames
 * its fields. The oEmbed call is a parameter: a function from the trimmed
 * URL asked about to what came back.
 */
module TikTok {
  import opened Text
  import opened Js
  import opened Wrappers

  const RequiredMessage := "TikTok URL is required."
  const InvalidUrlMessage := "Please enter a valid TikTok video URL."
  const FetchFailedMessage := "Failed to fetch TikTok preview data."
  const BadShapeMessage := "Invalid response from TikTok oEmbed."
  const UnexpectedMessage := "Unexpected error fetching TikTok preview."

  /** The four prefixes `^https?:\/\/(www\.)?tiktok\.com\/` expands to. */
  const AcceptedPrefixes: seq<string> := [
    "http://tiktok.com/", "https://tiktok.com/", "http://www.tiktok.com/", "https://www.tiktok.com/"]

  /**
   * The URL pattern with the `i` flag. Without the `u` flag only ASCII
   * letters fold, so matching is prefix matching on the ASCII-lowercased URL.
   */
  predicate TikTokUrlOk(url: string) {
    exists k :: 0 <= k < |AcceptedPrefixes| && StartsWith(ToLower(url), AcceptedPrefixes[k])
  }

  /** What the oEmbed call gave: a thrown error, a non-OK status, or an OK status with its body. */
  datatype OEmbedFetch =
    | FetchThrew
    | NotOk
    | OkBody(json: OEmbedJson)

  /** The OK body: not JSON (its parse throws), or a JSON value with its entries when it is an object. */
  datatype OEmbedJson = NotJson | Json(entries: Option<Entries>)

  datatype TikTokResponse =
    | Failure(httpStatus: int, error: string)
    | Preview(title: JsValue, authorName: JsValue, authorUrl: JsValue,
              thumbnailUrl: JsValue, embedHtml: JsValue, originalUrl: string)

  /** `body?.url`; an unreadable body reads as `null`, a non-object has no `url`. */
  function UrlField(body: Option<Entries>): JsValue {
    if body.Some? then Get(body.value, "url") else Undefined
  }

  /** `body?.url?.trim()`: absent for a nullish `url`, a throw (`None`) when it is not a string. */
  function RawUrl(url: JsValue): Option<Option<string>> {
    if IsNullish(url) then Some(None)
    else if url.Str? then Some(Some(Trim(url.s)))
    else None
  }

  function Post(body: Option<Entries>, oembed: string -> OEmbedFetch): TikTokResponse {
    match RawUrl(UrlField(body))
    case None => Failure(500, UnexpectedMessage)
    case Some(raw) =>
      if raw.None? || raw.value == "" then Failure(400, RequiredMessage)
      else if !TikTokUrlOk(raw.value) then Failure(400, InvalidUrlMessage)
      else Answer(oembed(raw.value), raw.value)
  }

  /** The mapping of the oEmbed outcome for the accepted URL `rawUrl`. */
  function Answer(got: OEmbedFetch, rawUrl: string): TikTokResponse {
    match got
    case FetchThrew => Failure(500, UnexpectedMessage)
    case NotOk => Failure(502, FetchFailedMessage)
    case OkBody(NotJson) => Failure(500, UnexpectedMessage)
    case OkBody(Json(None)) => Failure(502, BadShapeMessage)
    case OkBody(Json(Some(data))) =>
      if !Truthy(Get(data, "thumbnail_url")) || !Truthy(Get(data, "html")) then
        Failure(502, BadShapeMessage)
      else
        Preview(Get(data, "title"), Get(data, "author_name"), Get(data, "author_url"),
                Get(data, "thumbnail_url"), Get(data, "html"), rawUrl)
  }

  /**
   * A missing `url`, or one that is blank once trimmed, is answered 400
   * "TikTok URL is required."; a `url` that is present but not a string
   * makes `trim` throw, which is answered 500.
   */
  lemma UrlRequired(body: Option<Entries>, oembed: string -> OEmbedFetch)
    ensures var url := UrlField(body);
      (Post(body, oembed) == Failure(400, RequiredMessage) <==> IsNullish(url) || (url.Str? && Trim(url.s) == ""))
      && (!IsNullish(url) && !url.Str? ==> Post(body, oembed) == Failure(500, UnexpectedMessage))
  {
    var a, b := RequiredMessage, InvalidUrlMessage;
    assert a[0] != b[0];
  }

  /**
   * A non-blank URL that does not match the pattern is answered 400 without
   * asking TikTok: the answer is the same whatever the oEmbed call would do.
   */
  lemma RejectedWithoutFetch(body: Option<Entries>, oembed: string -> OEmbedFetch, other: string -> OEmbedFetch)
    requires UrlField(body).Str? && Trim(UrlField(body).s) != "" && !TikTokUrlOk(Trim(UrlField(body).s))
    ensures Post(body, oembed) == Failure(400, InvalidUrlMessage) == Post(body, other)
  {
  }

  /**
   * For an accepted URL, a non-OK status is a 502, a body without a truthy
   * `thumbnail_url` and `html` (or no object at all) is a 502, a throw is a
   * 500, and otherwise the preview carries the five fields under their new
   * names and the trimmed URL as `originalUrl`.
   */
  lemma AnswerSpec(got: OEmbedFetch, rawUrl: string)
    ensures Answer(got, rawUrl).Failure? && Answer(got, rawUrl).httpStatus == 502 <==>
      got.NotOk? || (got.OkBody? && got.json.Json? &&
        (got.json.entries.None? || !Truthy(Get(got.json.entries.value, "thumbnail_url"))
         || !Truthy(Get(got.json.entries.value, "html"))))
    ensures Answer(got, rawUrl).Failure? && Answer(got, rawUrl).httpStatus == 500 <==>
      got.FetchThrew? || got == OkBody(NotJson)
    ensures Answer(got, rawUrl).Preview? ==>
      var data := got.json.entries.value;
      Answer(got, rawUrl) == Preview(Get(data, "title"), Get(data, "author_name"), Get(data, "author_url"),
                                      Get(data, "thumbnail_url"), Get(data, "html"), rawUrl)
      && Truthy(Answer(got, rawUrl).thumbnailUrl) && Truthy(Answer(got, rawUrl).embedHtml)
  {
  }

  /** A successful preview echoes the trimmed URL, which the pattern accepts. */
  lemma PreviewEchoesUrl(body: Option<Entries>, oembed: string -> OEmbedFetch)
    requires Post(body, oembed).Preview?
    ensures UrlField(body).Str?
    ensures Post(body, oembed).originalUrl == Trim(UrlField(body).s)
    ensures TikTokUrlOk(Post(body, oembed).originalUrl)
    ensures NoSurroundingSpace(Post(body, oembed).originalUrl)
  {
    TrimShape(UrlField(body).s);
  }

  predicate NoSurroundingSpace(s: string) {
    s == [] || (!IsSpace(s[0]) && !IsSpace(s[|s| - 1]))
  }

  /** Matching ignores the case of ASCII letters. */
  lemma UrlCaseInsensitive(url: string)
    ensures TikTokUrlOk(url) <==> TikTokUrlOk(ToLower(url))
  {
    ToLowerIsLower(ToLower(url));
    ToLowerIsLower(url);
  }

  /** Each of the four prefixes, followed by any path, passes. */
  lemma PrefixAccepted(k: nat, path: string)
    requires k < |AcceptedPrefixes|
    ensures TikTokUrlOk(AcceptedPrefixes[k] + path)
  {
    var p := AcceptedPrefixes[k];
    PrefixesLower(k);
    ToLowerConcat(p, path);
    assert ToLower(p + path)[..|p|] == p;
    assert StartsWith(ToLower(p + path), AcceptedPrefixes[k]);
  }

  /** The accepted prefixes are already lowercase. */
  lemma PrefixesLower(k: nat)
    requires k < |AcceptedPrefixes|
    ensures ToLower(AcceptedPrefixes[k]) == AcceptedPrefixes[k]
  {
    var p := AcceptedPrefixes[k];
    assert IsLowerCase(p) by {
      forall i | 0 <= i < |p| ensures !IsUpper(p[i]) {
        assert p[i] in "htps:/w.ikocm";
      }
    }
    ToLowerIsLower(p);
  }

  /** Examples: other hosts, short links, look-alikes and other schemes do not pass. */
  lemma UrlExamples()
    ensures !TikTokUrlOk("https://vm.tiktok.com/abc")
    ensures !TikTokUrlOk("https://mytiktok.com/x")
    ensures !TikTokUrlOk("ftp://tiktok.com/")
  {
    NotAccepted("https://vm.tiktok.com/abc", 8, 'v');
    NotAccepted("https://mytiktok.com/x", 8, 'm');
    NotAccepted("ftp://tiktok.com/", 0, 'f');
  }

  /** A URL whose lowercased `p`-th character differs from every accepted prefix's is rejected. */
  lemma NotAccepted(url: string, p: nat, c: char)
    requires p < |url| && Lower(url[p]) == c
    requires forall k :: 0 <= k < |AcceptedPrefixes| ==> p < |AcceptedPrefixes[k]| && AcceptedPrefixes[k][p] != c
    ensures !TikTokUrlOk(url)
  {
    forall k | 0 <= k < |AcceptedPrefixes| ensures !StartsWith(ToLower(url), AcceptedPrefixes[k]) {
      if |AcceptedPrefixes[k]| <= |url| {
        assert ToLower(url)[..|AcceptedPrefixes[k]|][p] == c;
      }
    }
  }
}
