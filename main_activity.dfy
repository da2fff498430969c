/**
 * The helpers of MainActivity.kt: headers embedded in a stream URL after
 * `|`, DRM parameters carried in the URL, the ClearKey license URI, and the
 * decisions startPlayback makes before it hands strings and maps to the
 * media player.
 */
module MainActivity {
  import opened Wrappers
  import opened Text
  import FirstMatch
  import Base64

  // ---------------------------------------------------------------------
  // parseUrlWithHeaders
  // ---------------------------------------------------------------------

  /** The four header names an embedded `|Name=value` parameter can set. */
  const HeaderNames: set<string> := {"Referer", "Cookie", "Origin", "User-Agent"}

  /** The parameter prefix for a header name: the name followed by '='. */
  function HeaderPrefix(name: string): string {
    name + "="
  }

  /**
   * The header map the parameters give: a name is present exactly when some
   * parameter starts with its prefix (ignoring case), and its value is the
   * last such parameter minus the prefix.
   */
  ghost predicate HeadersOf(params: seq<string>, headers: map<string, string>) {
    && (forall k :: k in headers <==> k in HeaderNames && HasParam(params, HeaderPrefix(k)))
    && (forall k :: k in headers ==> headers[k] == LastParamValue(params, HeaderPrefix(k)))
  }

  /** The four prefixes start with different letters, so a parameter carries at most one of them. */
  lemma {:induction false} PrefixesExclusive(param: string)
    ensures StartsWithIgnoreCase(param, "Referer=") ==>
              !StartsWithIgnoreCase(param, "Cookie=") && !StartsWithIgnoreCase(param, "Origin=")
              && !StartsWithIgnoreCase(param, "User-Agent=")
    ensures StartsWithIgnoreCase(param, "Cookie=") ==>
              !StartsWithIgnoreCase(param, "Origin=") && !StartsWithIgnoreCase(param, "User-Agent=")
    ensures StartsWithIgnoreCase(param, "Origin=") ==> !StartsWithIgnoreCase(param, "User-Agent=")
  {
    if |param| > 0 {
      assert AsciiLower(param[0]) == 'r' || AsciiLower(param[0]) == 'c' || AsciiLower(param[0]) == 'o'
             || AsciiLower(param[0]) == 'u' || !(StartsWithIgnoreCase(param, "Referer=")
             || StartsWithIgnoreCase(param, "Cookie=") || StartsWithIgnoreCase(param, "Origin="));
    }
  }

  /** The map after one parameter has been read: the header it starts with (if any) takes its value. */
  function WithParam(headers: map<string, string>, param: string): map<string, string> {
    if StartsWithIgnoreCase(param, "Referer=") then headers["Referer" := param[8..]]
    else if StartsWithIgnoreCase(param, "Cookie=") then headers["Cookie" := param[7..]]
    else if StartsWithIgnoreCase(param, "Origin=") then headers["Origin" := param[7..]]
    else if StartsWithIgnoreCase(param, "User-Agent=") then headers["User-Agent" := param[11..]]
    else headers
  }

  /** Reading one more parameter keeps the map the one its parameters determine. */
  lemma HeadersStep(params: seq<string>, param: string, headers: map<string, string>)
    requires HeadersOf(params, headers)
    ensures HeadersOf(params + [param], WithParam(headers, param))
  {
    forall k
      ensures var h := WithParam(headers, param);
              && (k in h <==> k in HeaderNames && HasParam(params + [param], HeaderPrefix(k)))
              && (k in h ==> h[k] == LastParamValue(params + [param], HeaderPrefix(k)))
    {
      HeaderStep(params, param, headers, k);
    }
  }

  /** The step for one header name. */
  lemma HeaderStep(params: seq<string>, param: string, headers: map<string, string>, k: string)
    requires HeadersOf(params, headers)
    ensures var h := WithParam(headers, param);
            && (k in h <==> k in HeaderNames && HasParam(params + [param], HeaderPrefix(k)))
            && (k in h ==> h[k] == LastParamValue(params + [param], HeaderPrefix(k)))
  {
    ParamAfter(params, param, HeaderPrefix(k));
    PrefixesExclusive(param);
    assert HeaderPrefix("Referer") == "Referer=";
    assert HeaderPrefix("Cookie") == "Cookie=";
    assert HeaderPrefix("Origin") == "Origin=";
    assert HeaderPrefix("User-Agent") == "User-Agent=";
  }

  /**
   * parseUrlWithHeaders: the text before the first `|`, untrimmed, and the
   * headers its `|`-separated parameters set, a later parameter overriding
   * an earlier one.
   */
  method ParseUrlWithHeaders(url: string) returns (cleanUrl: string, headers: map<string, string>)
    ensures cleanUrl == Split(url, '|')[0]
    ensures HeadersOf(Split(url, '|')[1..], headers)
  {
    var parts := Split(url, '|');
    cleanUrl := parts[0];
    headers := map[];
    for i := 1 to |parts|
      invariant HeadersOf(parts[1..i], headers)
    {
      var param := parts[i];
      ghost var before := headers;
      if StartsWithIgnoreCase(param, "Referer=") {
        headers := headers["Referer" := param[8..]];
      } else if StartsWithIgnoreCase(param, "Cookie=") {
        headers := headers["Cookie" := param[7..]];
      } else if StartsWithIgnoreCase(param, "Origin=") {
        headers := headers["Origin" := param[7..]];
      } else if StartsWithIgnoreCase(param, "User-Agent=") {
        headers := headers["User-Agent" := param[11..]];
      }
      assert headers == WithParam(before, param);
      HeadersStep(parts[1..i], param, before);
      assert parts[1..i + 1] == parts[1..i] + [param];
    }
    assert parts[1..|parts|] == parts[1..];
  }

  /** The headers are a unique map: one set of parameters admits one map. */
  lemma HeadersOfUnique(params: seq<string>, h1: map<string, string>, h2: map<string, string>)
    requires HeadersOf(params, h1) && HeadersOf(params, h2)
    ensures h1 == h2
  {
  }

  /** Only the four names ever appear as keys. */
  lemma HeaderKeys(params: seq<string>, headers: map<string, string>)
    requires HeadersOf(params, headers)
    ensures headers.Keys <= HeaderNames
  {
  }

  /** The clean URL is the part of url before the first `|`, and never contains `|`. */
  lemma CleanUrlIsPrefix(url: string)
    ensures var clean := Split(url, '|')[0];
            StartsWith(url, clean) && '|' !in clean && (|clean| == |url| || url[|clean|] == '|')
  {
    SplitHead(url, '|');
  }

  /** A URL with no `|` comes back unchanged, with no headers. */
  lemma {:induction false} PlainUrl(url: string, headers: map<string, string>)
    requires '|' !in url
    requires HeadersOf(Split(url, '|')[1..], headers)
    ensures Split(url, '|')[0] == url
    ensures headers == map[]
  {
    SplitHead(url, '|');
    assert Split(url, '|')[1..] == [];
  }

  // ---------------------------------------------------------------------
  // startPlayback: explicit header arguments
  // ---------------------------------------------------------------------

  /** Non-empty cookie, referer and origin arguments overwrite the embedded entries. */
  method ApplyHeaderArguments(embedded: map<string, string>, cookie: string, referer: string, origin: string)
    returns (headers: map<string, string>)
    ensures headers.Keys == embedded.Keys
                            + (if cookie != "" then {"Cookie"} else {})
                            + (if referer != "" then {"Referer"} else {})
                            + (if origin != "" then {"Origin"} else {})
    ensures cookie != "" ==> headers["Cookie"] == cookie
    ensures referer != "" ==> headers["Referer"] == referer
    ensures origin != "" ==> headers["Origin"] == origin
    ensures forall k :: (k in embedded && !(k == "Cookie" && cookie != "") && !(k == "Referer" && referer != "")
                         && !(k == "Origin" && origin != "")) ==> headers[k] == embedded[k]
  {
    headers := embedded;
    if cookie != "" {
      headers := headers["Cookie" := cookie];
    }
    if referer != "" {
      headers := headers["Referer" := referer];
    }
    if origin != "" {
      headers := headers["Origin" := origin];
    }
  }

  // ---------------------------------------------------------------------
  // startPlayback: user agent table
  // ---------------------------------------------------------------------

  const ChromeAgent: string := "Mozilla/5.0 (Windows NT 10.0; Win64; x64) AppleWebKit/537.36 (KHTML, like Gecko) Chrome/120.0.0.0 Safari/537.36"
  const FirefoxAgent: string := "Mozilla/5.0 (Windows NT 10.0; Win64; x64; rv:121.0) Gecko/20100101 Firefox/121.0"
  const SafariAgent: string := "Mozilla/5.0 (Macintosh; Intel Mac OS X 14_1) AppleWebKit/605.1.15 (KHTML, like Gecko) Version/17.1 Safari/605.1.15"
  const EdgeAgent: string := "Mozilla/5.0 (Windows NT 10.0; Win64; x64) AppleWebKit/537.36 (KHTML, like Gecko) Chrome/120.0.0.0 Safari/537.36 Edg/120.0.0.0"

  /**
   * The user-agent string for a browser name. Any other name gets
   * `systemAgent`, the value Util.getUserAgent(this, "CookieM3U8Player")
   * returns on the device.
   */
  function UserAgentFor(name: string, systemAgent: string): (r: string)
    ensures name !in {"Chrome", "Firefox", "Safari", "Edge"} ==> r == systemAgent
  {
    match name
    case "Chrome" => ChromeAgent
    case "Firefox" => FirefoxAgent
    case "Safari" => SafariAgent
    case "Edge" => EdgeAgent
    case _ => systemAgent
  }

  /** The four browser names give four different strings whatever the system agent is. */
  lemma BrowserAgentsDistinct(systemAgent: string, a: string, b: string)
    requires a in {"Chrome", "Firefox", "Safari", "Edge"} && b in {"Chrome", "Firefox", "Safari", "Edge"}
    ensures UserAgentFor(a, systemAgent) == UserAgentFor(b, systemAgent) <==> a == b
  {
    assert |ChromeAgent| == 111 && |FirefoxAgent| == 80 && |SafariAgent| == 114 && |EdgeAgent| == 125;
  }

  // ---------------------------------------------------------------------
  // DRM parameters in the URL
  // ---------------------------------------------------------------------

  const DrmStops: set<char> := {'&', '|'}

  /** extractDrmScheme: the first drmScheme=([^&|]+) match's group, lower-cased, or "". */
  function ExtractDrmScheme(url: string): string {
    match FirstMatch.Capture(url, "drmScheme=", DrmStops, false)
    case Some(v) => AsciiLowerString(v)
    case None => ""
  }

  /** extractDrmLicense: the first drmLicense=([^&|]+) match's group as written, or "". */
  function ExtractDrmLicense(url: string): string {
    FirstMatch.Capture(url, "drmLicense=", DrmStops, false).GetOr("")
  }

  /**
   * The extracted values are empty exactly when the key is not followed by
   * a character other than '&' and '|' anywhere, and contain neither of those.
   */
  lemma DrmExtraction(url: string)
    ensures var scheme := ExtractDrmScheme(url);
            && (scheme == "" <==> forall q :: 0 <= q <= |url| ==> !FirstMatch.MatchesAt(url, "drmScheme=", DrmStops, false, q))
            && '&' !in scheme && '|' !in scheme
    ensures var license := ExtractDrmLicense(url);
            && (license == "" <==> forall q :: 0 <= q <= |url| ==> !FirstMatch.MatchesAt(url, "drmLicense=", DrmStops, false, q))
            && '&' !in license && '|' !in license
  {
    FirstMatch.CaptureIsLeftmostMatch(url, "drmScheme=", DrmStops, false);
    FirstMatch.CaptureIsLeftmostMatch(url, "drmLicense=", DrmStops, false);
    var c := FirstMatch.Capture(url, "drmScheme=", DrmStops, false);
    if c.Some? {
      var s := AsciiLowerString(c.value);
      assert s[0] == AsciiLower(c.value[0]);
      forall k | 0 <= k < |s| ensures s[k] != '&' && s[k] != '|' {
        assert c.value[k] in c.value;
      }
    }
  }

  /** The license key as it follows drmLicense=: "drmLicense=abc:def&x" gives "abc:def". */
  lemma DrmLicenseExample()
    ensures ExtractDrmLicense("drmLicense=ab&x") == "ab"
  {
    var s := "drmLicense=ab&x";
    assert FirstMatch.RunLength(s, 13, DrmStops) == 0;
    assert FirstMatch.RunLength(s, 11, DrmStops) == 2;
    assert s[0..11] == "drmLicense=";
    assert FirstMatch.MatchesAt(s, "drmLicense=", DrmStops, false, 0);
    assert s[11..13] == "ab";
  }

  // ---------------------------------------------------------------------
  // buildClearKeyLicenseUrl
  // ---------------------------------------------------------------------

  const DataUriPrefix: string := "data:application/json;base64,"

  /** The ClearKey JSON license for one key id and key. */
  function ClearKeyJson(kid: string, key: string): string {
    "{\"keys\":[{\"kty\":\"oct\",\"k\":\"" + key + "\",\"kid\":\"" + kid + "\"}],\"type\":\"temporary\"}"
  }

  /**
   * buildClearKeyLicenseUrl: "kid:key" becomes a data URI holding the
   * base64 of the UTF-8 JSON license; anything that does not split into
   * exactly two parts at ':' becomes "".
   */
  function BuildClearKeyLicenseUrl(license: string): string {
    var parts := Split(license, ':');
    if |parts| == 2 then DataUriPrefix + Base64.Encode(Base64.Utf8(ClearKeyJson(parts[0], parts[1])))
    else ""
  }

  /** Splitting kid ':' key gives back kid and key when neither contains ':'. */
  lemma {:induction false} SplitAtSoleDelimiter(kid: string, key: string, d: char)
    requires d !in kid && d !in key
    ensures Split(kid + [d] + key, d) == [kid, key]
    decreases |kid|
  {
    var s := kid + [d] + key;
    if |kid| == 0 {
      assert s == [d] + key;
      assert s[1..] == key;
      SplitHead(key, d);
    } else {
      SplitAtSoleDelimiter(kid[1..], key, d);
      assert s[1..] == kid[1..] + [d] + key;
      assert [kid[0]] + kid[1..] == kid;
    }
  }

  /**
   * For a license "kid:key" with one colon, the URI is the data prefix
   * followed by text that decodes to the UTF-8 bytes of the JSON license.
   */
  lemma ClearKeyRoundTrip(kid: string, key: string)
    requires ':' !in kid && ':' !in key
    ensures var uri := BuildClearKeyLicenseUrl(kid + ":" + key);
            && StartsWith(uri, DataUriPrefix)
            && Base64.Decode(uri[|DataUriPrefix|..]) == Some(Base64.Utf8(ClearKeyJson(kid, key)))
  {
    SplitAtSoleDelimiter(kid, key, ':');
    assert kid + ":" + key == kid + [':'] + key;
    var payload := Base64.Encode(Base64.Utf8(ClearKeyJson(kid, key)));
    Base64.DecodeEncode(Base64.Utf8(ClearKeyJson(kid, key)));
    assert (DataUriPrefix + payload)[|DataUriPrefix|..] == payload;
  }

  /**
   * The URI is empty exactly when the license does not split into two parts
   * at ':'; in particular a license without a colon gives "".
   */
  lemma {:induction false} ClearKeyNeedsTwoParts(license: string)
    ensures BuildClearKeyLicenseUrl(license) == "" <==> |Split(license, ':')| != 2
    ensures ':' !in license ==> BuildClearKeyLicenseUrl(license) == ""
  {
    SplitHead(license, ':');
    if |Split(license, ':')| == 2 {
      assert |BuildClearKeyLicenseUrl(license)| >= |DataUriPrefix| > 0;
    }
  }

  /** For an ASCII kid and key the JSON text goes into the encoder byte for character. */
  lemma ClearKeyAsciiPayload(kid: string, key: string)
    requires forall k :: 0 <= k < |kid| ==> kid[k] as int < 0x80
    requires forall k :: 0 <= k < |key| ==> key[k] as int < 0x80
    ensures var json := ClearKeyJson(kid, key);
            |Base64.Utf8(json)| == |json| && forall k :: 0 <= k < |json| ==> Base64.Utf8(json)[k] == json[k] as int
  {
    var json := ClearKeyJson(kid, key);
    forall k | 0 <= k < |json| ensures json[k] as int < 0x80 {
    }
    Base64.Utf8Ascii(json);
  }

  // ---------------------------------------------------------------------
  // startPlayback: DRM gate and stream type
  // ---------------------------------------------------------------------

  /**
   * The license URI of the DRM configuration startPlayback attaches, or
   * None: the URL must contain both keys, the scheme must be "clearkey" and
   * the license non-empty.
   */
  function DrmLicenseUri(streamUrl: string): Option<string> {
    if Contains(streamUrl, "drmScheme=") && Contains(streamUrl, "drmLicense=") then
      var scheme := ExtractDrmScheme(streamUrl);
      var license := ExtractDrmLicense(streamUrl);
      if scheme == "clearkey" && license != "" then Some(BuildClearKeyLicenseUrl(license)) else None
    else None
  }

  /** The contains-check is redundant: the gate opens exactly when the two extractions succeed. */
  lemma {:induction false} DrmGateByExtraction(streamUrl: string)
    ensures DrmLicenseUri(streamUrl).Some? <==>
              ExtractDrmScheme(streamUrl) == "clearkey" && ExtractDrmLicense(streamUrl) != ""
    ensures DrmLicenseUri(streamUrl).Some? ==>
              DrmLicenseUri(streamUrl).value == BuildClearKeyLicenseUrl(ExtractDrmLicense(streamUrl))
  {
    if ExtractDrmScheme(streamUrl) == "clearkey" && ExtractDrmLicense(streamUrl) != "" {
      FirstMatch.MatchImpliesKeyOccurs(streamUrl, "drmScheme=", DrmStops, false);
      FirstMatch.MatchImpliesKeyOccurs(streamUrl, "drmLicense=", DrmStops, false);
    }
  }

  datatype StreamType = Dash | Hls

  /** DASH exactly when the clean URL contains ".mpd", HLS otherwise. */
  function StreamTypeOf(cleanUrl: string): (t: StreamType)
    ensures t == Dash <==> Contains(cleanUrl, ".mpd")
  {
    if Contains(cleanUrl, ".mpd") then Dash else Hls
  }

  /** DASH exactly when ".mpd" occurs at some position of the clean URL. */
  lemma StreamTypeByPosition(cleanUrl: string)
    ensures StreamTypeOf(cleanUrl) == Dash <==> exists p: nat :: p <= |cleanUrl| && OccursAt(cleanUrl, ".mpd", p)
  {
    ContainsIffOccurs(cleanUrl, ".mpd");
  }

  /**
   * The type is decided on the clean URL only: a ".mpd" that appears only in
   * a `|` parameter leaves the stream HLS.
   */
  lemma MpdInParameterIsHls(base: string, params: string)
    requires '|' !in base && !Contains(base, ".mpd")
    ensures Split(base + "|" + params, '|')[0] == base
    ensures StreamTypeOf(Split(base + "|" + params, '|')[0]) == Hls
  {
    var url := base + "|" + params;
    SplitHead(url, '|');
    var p0 := Split(url, '|')[0];
    assert url[|base|] == '|';
    assert url[..|base|] == base;
    assert forall k :: 0 <= k < |base| ==> url[k] == base[k];
    assert p0 == url[..|p0|];
  }

  /** What startPlayback hands to the media player. */
  datatype PlaybackRequest = PlaybackRequest(
    uri: string,
    headers: map<string, string>,
    userAgent: string,
    drmLicenseUri: Option<string>,
    streamType: StreamType)

  /**
   * startPlayback up to the media-source construction. The `drmLicense`
   * and `drmScheme` arguments are accepted and ignored, as in the source:
   * DRM is read from the URL only.
   */
  method StartPlayback(streamUrl: string, cookie: string, referer: string, origin: string,
                       drmLicense: string, userAgent: string, drmScheme: string, systemAgent: string)
    returns (request: PlaybackRequest)
    ensures request.uri == Split(streamUrl, '|')[0]
    ensures request.userAgent == UserAgentFor(userAgent, systemAgent)
    ensures request.drmLicenseUri == DrmLicenseUri(streamUrl)
    ensures request.streamType == StreamTypeOf(request.uri)
    ensures forall k :: k in request.headers <==>
              (k in HeaderNames && HasParam(Split(streamUrl, '|')[1..], HeaderPrefix(k)))
              || (k == "Cookie" && cookie != "") || (k == "Referer" && referer != "") || (k == "Origin" && origin != "")
    ensures cookie != "" ==> request.headers["Cookie"] == cookie
    ensures referer != "" ==> request.headers["Referer"] == referer
    ensures origin != "" ==> request.headers["Origin"] == origin
    ensures forall k :: k in request.headers && !(k == "Cookie" && cookie != "") && !(k == "Referer" && referer != "")
                        && !(k == "Origin" && origin != "") ==>
              request.headers[k] == LastParamValue(Split(streamUrl, '|')[1..], HeaderPrefix(k))
  {
    var url, embedded := ParseUrlWithHeaders(streamUrl);
    var headers := ApplyHeaderArguments(embedded, cookie, referer, origin);
    var agent := UserAgentFor(userAgent, systemAgent);
    var drm := DrmLicenseUri(streamUrl);
    request := PlaybackRequest(url, headers, agent, drm, StreamTypeOf(url));
  }
}
