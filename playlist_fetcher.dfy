/**
 * The playlist parser (PlaylistFetcher.kt): format detection, the JSON
 * mapping and the line-by-line M3U/M3U8 state machine.
 *
 * The JSON text itself is decoded by a foreign library (org.json); the
 * model receives what that library would hand back: either no array at
 * all (JSONArray(content) throws, for a syntax error or for a top-level
 * object) or the array's elements, each an object whose keys map to their
 * string values or something that is not an object.
 */
module PlaylistFetcher {
  import opened Wrappers
  import opened Text
  import opened Seqs
  import opened Models
  import FirstMatch

  // ---------------------------------------------------------------------
  // JSON path
  // ---------------------------------------------------------------------

  datatype JsonElement = JsonObject(fields: map<string, string>) | NonObject

  datatype JsonDocument = JsonArray(elements: seq<JsonElement>) | Malformed

  /** optString(key, fallback) on a decoded object. */
  function OptString(fields: map<string, string>, key: string, fallback: string): string {
    if key in fields then fields[key] else fallback
  }

  /** The Channel built from the object at zero-based array index i. */
  function ChannelFromJson(fields: map<string, string>, i: nat): Channel {
    Channel(
      name := OptString(fields, "name", "Channel " + NatToString(i)),
      url := OptString(fields, "link", OptString(fields, "url", "")),
      logo := OptString(fields, "logo", ""),
      cookie := OptString(fields, "cookie", ""),
      referer := OptString(fields, "referer", ""),
      origin := OptString(fields, "origin", ""),
      userAgent := OptString(fields, "userAgent", DefaultUserAgent),
      groupTitle := OptString(fields, "group", OptString(fields, "category", "")))
  }

  /** Number of leading elements that are objects: getJSONObject throws at the first that is not. */
  function ScanEnd(elems: seq<JsonElement>): (n: nat)
    ensures n <= |elems|
    ensures forall k :: 0 <= k < n ==> elems[k].JsonObject?
    ensures n < |elems| ==> elems[n].NonObject?
  {
    if |elems| == 0 || elems[0].NonObject? then 0 else 1 + ScanEnd(elems[1..])
  }

  /** Every element the scan reaches, mapped to a Channel, before the empty-url check. */
  function JsonCandidates(elems: seq<JsonElement>): (cs: seq<Channel>)
    ensures |cs| == ScanEnd(elems)
  {
    seq(ScanEnd(elems), i requires 0 <= i < ScanEnd(elems) => ChannelFromJson(elems[i].fields, i))
  }

  predicate HasUrl(c: Channel) {
    c.url != ""
  }

  /** What parseJsonChannels returns for a decoded document. */
  function JsonChannels(document: JsonDocument): seq<Channel> {
    match document
    case Malformed => []
    case JsonArray(elems) => Filter(JsonCandidates(elems), HasUrl)
  }

  method ParseJsonChannels(document: JsonDocument) returns (channels: seq<Channel>)
    ensures channels == JsonChannels(document)
  {
    channels := [];
    if document.Malformed? {
      return;  // JSONArray(content) threw; the catch returns the empty list
    }
    var elems := document.elements;
    var i := 0;
    while i < |elems|
      invariant 0 <= i <= ScanEnd(elems)
      invariant channels == Filter(JsonCandidates(elems)[..i], HasUrl)
    {
      if elems[i].NonObject? {
        break;  // getJSONObject(i) threw; the catch keeps what was gathered
      }
      var channel := ChannelFromJson(elems[i].fields, i);
      assert JsonCandidates(elems)[..i + 1] == JsonCandidates(elems)[..i] + [channel];
      FilterAppend(JsonCandidates(elems)[..i], [channel], HasUrl);
      if channel.url != "" {
        channels := channels + [channel];
      }
      i := i + 1;
    }
    assert JsonCandidates(elems)[..i] == JsonCandidates(elems);
  }

  /** The per-field fallback rules of the JSON mapping. */
  lemma JsonFieldMapping(fields: map<string, string>, i: nat)
    ensures var c := ChannelFromJson(fields, i);
            && ("link" in fields ==> c.url == fields["link"])
            && ("link" !in fields && "url" in fields ==> c.url == fields["url"])
            && ("link" !in fields && "url" !in fields ==> c.url == "")
            && ("group" in fields ==> c.groupTitle == fields["group"])
            && ("group" !in fields && "category" in fields ==> c.groupTitle == fields["category"])
            && ("group" !in fields && "category" !in fields ==> c.groupTitle == "")
            && ("name" !in fields ==> c.name == "Channel " + NatToString(i))
            && ("userAgent" !in fields ==> c.userAgent == "Default")
  {
  }

  /** Every emitted channel has a url; the output is an order-preserving subsequence of the mapped elements. */
  lemma {:induction false} JsonOutputIsSubsequence(elems: seq<JsonElement>)
    ensures forall c :: c in JsonChannels(JsonArray(elems)) ==> c.url != ""
    ensures IsSubsequence(JsonChannels(JsonArray(elems)), JsonCandidates(elems))
    ensures |JsonChannels(JsonArray(elems))| <= |elems|
  {
    FilterIsSubsequence(JsonCandidates(elems), HasUrl);
  }

  /** A non-object element ends the scan: the result is what the elements before it give. */
  lemma {:induction false} JsonStopsAtNonObject(elems: seq<JsonElement>, k: nat)
    requires k < |elems| && elems[k].NonObject?
    requires forall j :: 0 <= j < k ==> elems[j].JsonObject?
    ensures JsonChannels(JsonArray(elems)) == JsonChannels(JsonArray(elems[..k]))
  {
    ScanEndIsFirstNonObject(elems, k);
    assert ScanEnd(elems[..k]) == k;
    assert JsonCandidates(elems) == JsonCandidates(elems[..k]);
  }

  lemma {:induction false} ScanEndIsFirstNonObject(elems: seq<JsonElement>, k: nat)
    requires k < |elems| && elems[k].NonObject?
    requires forall j :: 0 <= j < k ==> elems[j].JsonObject?
    ensures ScanEnd(elems) == k
  {
  }

  /** A channel written as a JSON object under the keys the mapping reads, its group under "group". */
  function ToFields(c: Channel): map<string, string> {
    map["name" := c.name, "url" := c.url, "logo" := c.logo, "cookie" := c.cookie, "referer" := c.referer,
        "origin" := c.origin, "userAgent" := c.userAgent, "group" := c.groupTitle]
  }

  /** A list of channels written as a JSON array of such objects. */
  function ToJsonArray(cs: seq<Channel>): JsonDocument {
    JsonArray(seq(|cs|, k requires 0 <= k < |cs| => JsonObject(ToFields(cs[k]))))
  }

  /** Every present value is copied over: the mapping reads back a channel written with ToFields. */
  lemma JsonFieldsRoundTrip(c: Channel, i: nat)
    ensures ChannelFromJson(ToFields(c), i) == c
  {
  }

  /** Writing channels as a JSON array and parsing it back gives the channels that have a url, in order. */
  lemma {:induction false} JsonRoundTrip(cs: seq<Channel>)
    ensures JsonChannels(ToJsonArray(cs)) == Filter(cs, HasUrl)
  {
    var elems := ToJsonArray(cs).elements;
    ScanEndAllObjects(elems);
    var cands := JsonCandidates(elems);
    forall k | 0 <= k < |cs| ensures cands[k] == cs[k] {
      JsonFieldsRoundTrip(cs[k], k);
    }
    assert cands == cs;
  }

  /** With no non-object element the scan reaches the end of the array. */
  lemma {:induction false} ScanEndAllObjects(elems: seq<JsonElement>)
    requires forall k :: 0 <= k < |elems| ==> elems[k].JsonObject?
    ensures ScanEnd(elems) == |elems|
    decreases |elems|
  {
    if |elems| > 0 {
      ScanEndAllObjects(elems[1..]);
    }
  }

  /** A key present with an empty value still wins over the fallback key, so the record is dropped. */
  lemma JsonEmptyLinkDrops(fields: map<string, string>, i: nat)
    requires "link" in fields && fields["link"] == ""
    ensures !HasUrl(ChannelFromJson(fields, i))
  {
  }

  /** The array [{"name":"A","url":""},{"name":"B","link":"http://x/b.m3u8"}] yields exactly channel B. */
  lemma JsonExample()
    ensures JsonChannels(JsonArray([JsonObject(map["name" := "A", "url" := ""]),
                                    JsonObject(map["name" := "B", "link" := "http://x/b.m3u8"])]))
            == [Channel("B", "http://x/b.m3u8")]
  {
    var elems := [JsonObject(map["name" := "A", "url" := ""]),
                  JsonObject(map["name" := "B", "link" := "http://x/b.m3u8"])];
    assert ScanEnd(elems[2..]) == 0;
    assert ScanEnd(elems[1..]) == 1 by { assert elems[1..][1..] == elems[2..]; }
    assert ScanEnd(elems) == 2;
    var cs := JsonCandidates(elems);
    assert cs[0].url == "" && cs[1] == Channel("B", "http://x/b.m3u8");
    assert cs[1..][1..] == [];
  }

  // ---------------------------------------------------------------------
  // M3U/M3U8 path
  // ---------------------------------------------------------------------

  datatype LineKind = ExtinfLine | UrlLine | OtherLine

  /** Which branch of the `when` a line takes once trimmed. */
  function KindOf(line: string): LineKind {
    var t := Trim(line);
    if StartsWith(t, "#EXTINF:") then ExtinfLine
    else if StartsWith(t, "http") || StartsWith(t, "https") then UrlLine
    else OtherLine
  }

  /** How many lines of ls are playable URL lines. */
  function CountUrlLines(ls: seq<string>): (n: nat)
    ensures n <= |ls|
  {
    if |ls| == 0 then 0
    else CountUrlLines(ls[..|ls| - 1]) + (if KindOf(ls[|ls| - 1]) == UrlLine then 1 else 0)
  }

  /** Index of the last line of kind k in ls, or -1. */
  function LastOfKind(ls: seq<string>, k: LineKind): (r: int)
    ensures -1 <= r < |ls|
    ensures r >= 0 ==> KindOf(ls[r]) == k
    ensures forall j :: r < j < |ls| ==> KindOf(ls[j]) != k
  {
    if |ls| == 0 then -1
    else if KindOf(ls[|ls| - 1]) == k then |ls| - 1
    else LastOfKind(ls[..|ls| - 1], k)
  }

  predicate HasComma(line: string) {
    LastIndexOf(Trim(line), ',') >= 0
  }

  /** The trimmed text after the last comma of an #EXTINF line. */
  function ExtinfName(line: string): string
    requires HasComma(line)
  {
    var t := Trim(line);
    Trim(t[LastIndexOf(t, ',') + 1..])
  }

  /** Index of the last #EXTINF line of ls that has a comma, or -1. */
  function LastNamedExtinf(ls: seq<string>): (r: int)
    ensures -1 <= r < |ls|
    ensures r >= 0 ==> KindOf(ls[r]) == ExtinfLine && HasComma(ls[r])
    ensures forall j :: r < j < |ls| ==> !(KindOf(ls[j]) == ExtinfLine && HasComma(ls[j]))
  {
    if |ls| == 0 then -1
    else if KindOf(ls[|ls| - 1]) == ExtinfLine && HasComma(ls[|ls| - 1]) then |ls| - 1
    else LastNamedExtinf(ls[..|ls| - 1])
  }

  /** Index of the first #EXTINF line of ls at or after lo, or -1. */
  function FirstExtinfFrom(ls: seq<string>, lo: nat): (r: int)
    ensures r == -1 || (lo <= r < |ls| && KindOf(ls[r]) == ExtinfLine)
    ensures forall j :: lo <= j < |ls| && (r == -1 || j < r) ==> KindOf(ls[j]) != ExtinfLine
  {
    if |ls| <= lo then -1
    else
      var r := FirstExtinfFrom(ls[..|ls| - 1], lo);
      if r >= 0 then r
      else if KindOf(ls[|ls| - 1]) == ExtinfLine then |ls| - 1
      else -1
  }

  /** "Channel n" for the #EXTINF line at zero-based index i (n = i + 1). */
  function ChannelPlaceholder(i: nat): string {
    "Channel " + NatToString(i + 1)
  }

  /** "Stream n" for the URL line at zero-based index i (n = i + 1). */
  function StreamPlaceholder(i: nat): string {
    "Stream " + NatToString(i + 1)
  }

  const LogoKey: string := "tvg-logo=\""
  const GroupKey: string := "group-title=\""
  const Quote: set<char> := {'"'}

  /** The first tvg-logo="X" of a line with non-empty quote-free X, or "". */
  function LogoAttr(line: string): string {
    FirstMatch.Capture(Trim(line), LogoKey, Quote, true).GetOr("")
  }

  /** The first group-title="X" of a line with non-empty quote-free X, or "". */
  function GroupAttr(line: string): string {
    FirstMatch.Capture(Trim(line), GroupKey, Quote, true).GetOr("")
  }

  /*
   * The pending state after the lines ls have been read, stated by where it
   * comes from rather than by replaying the loop. The window of a pending
   * entry is the stretch after the last URL line.
   */

  /**
   * Where currentName comes from: no #EXTINF in the window; the last #EXTINF
   * of the window that has a comma (its index and its text); or, with no
   * comma anywhere in the window, the window's first #EXTINF.
   */
  datatype NameSource = NoEntry | NamedAt(c: nat, line: string) | FirstBareAt(f: nat)

  function PendingSource(ls: seq<string>): (src: NameSource)
    ensures src.NamedAt? ==> src.c < |ls| && src.line == ls[src.c] && HasComma(src.line)
  {
    var u := LastOfKind(ls, UrlLine);
    if LastOfKind(ls, ExtinfLine) <= u then NoEntry
    else
      var c := LastNamedExtinf(ls);
      if c > u then NamedAt(c, ls[c])
      else
        var f := FirstExtinfFrom(ls, u + 1);
        assert f >= 0 by {
          var e := LastOfKind(ls, ExtinfLine);
          assert u + 1 <= e < |ls| && KindOf(ls[e]) == ExtinfLine;
        }
        FirstBareAt(f)
  }

  /**
   * The name a source gives: the trimmed text after the last comma, or
   * "Channel n" for that line when it is empty; "Channel n" for the first
   * bare #EXTINF; "" with no entry.
   */
  function SourceName(src: NameSource): string
    requires src.NamedAt? ==> HasComma(src.line)
  {
    match src
    case NoEntry => ""
    case NamedAt(c, line) =>
      var n := ExtinfName(line);
      if n != "" then n else ChannelPlaceholder(c)
    case FirstBareAt(f) => ChannelPlaceholder(f)
  }

  /** currentName after the lines ls. */
  function PendingName(ls: seq<string>): string {
    SourceName(PendingSource(ls))
  }

  /** currentLogo: the logo of the last #EXTINF when it lies in the window, else "". */
  function PendingLogo(ls: seq<string>): string {
    var e := LastOfKind(ls, ExtinfLine);
    if e > LastOfKind(ls, UrlLine) then LogoAttr(ls[e]) else ""
  }

  /** currentGroup: the group of the last #EXTINF read at all, else "" (it is never reset by a URL line). */
  function PendingGroup(ls: seq<string>): string {
    var e := LastOfKind(ls, ExtinfLine);
    if e >= 0 then GroupAttr(ls[e]) else ""
  }

  /** The trimmed `|`-separated parameters that follow the URL on a URL line. */
  function StreamParams(line: string): seq<string> {
    TrimAll(Split(Trim(line), '|')[1..])
  }

  /** The channel emitted for the URL line `line` read after the lines `before`. */
  function ChannelForUrlLine(before: seq<string>, line: string): Channel {
    var pending := PendingName(before);
    var params := StreamParams(line);
    Channel(
      name := if pending == "" then StreamPlaceholder(|before|) else pending,
      url := Trim(Split(Trim(line), '|')[0]),
      logo := PendingLogo(before),
      cookie := LastParamValue(params, "cookie="),
      referer := LastParamValue(params, "Referer="),
      userAgent := if HasParam(params, "User-Agent=") then "Chrome" else DefaultUserAgent,
      groupTitle := PendingGroup(before))
  }

  /**
   * The channels read from the first i lines: one per URL line, and the one
   * for URL line j sits at the position given by the number of URL lines
   * before j.
   */
  ghost predicate EmittedUpTo(lines: seq<string>, i: nat, channels: seq<Channel>)
    requires i <= |lines|
  {
    && |channels| == CountUrlLines(lines[..i])
    && forall j :: 0 <= j < i && KindOf(lines[j]) == UrlLine ==>
         && CountUrlLines(lines[..j]) < |channels|
         && channels[CountUrlLines(lines[..j])] == ChannelForUrlLine(lines[..j], lines[j])
  }

  ghost predicate IsM3UParse(lines: seq<string>, channels: seq<Channel>) {
    EmittedUpTo(lines, |lines|, channels)
  }

  lemma {:induction false} CountStep(lines: seq<string>, i: nat)
    requires i < |lines|
    ensures CountUrlLines(lines[..i + 1]) == CountUrlLines(lines[..i]) + (if KindOf(lines[i]) == UrlLine then 1 else 0)
  {
    assert lines[..i + 1][..i] == lines[..i];
  }

  /** How the index functions move when one more line is read. */
  lemma IndicesAfter(ls: seq<string>, l: string)
    ensures var s := ls + [l];
            && (forall j :: 0 <= j < |ls| ==> s[j] == ls[j])
            && LastOfKind(s, UrlLine) == (if KindOf(l) == UrlLine then |ls| else LastOfKind(ls, UrlLine))
            && LastOfKind(s, ExtinfLine) == (if KindOf(l) == ExtinfLine then |ls| else LastOfKind(ls, ExtinfLine))
            && LastNamedExtinf(s) == (if KindOf(l) == ExtinfLine && HasComma(l) then |ls| else LastNamedExtinf(ls))
  {
    LastAfter(ls, l, UrlLine);
    LastAfter(ls, l, ExtinfLine);
    NamedAfter(ls, l);
  }

  lemma LastAfter(ls: seq<string>, l: string, k: LineKind)
    ensures LastOfKind(ls + [l], k) == if KindOf(l) == k then |ls| else LastOfKind(ls, k)
  {
    var s := ls + [l];
    assert s[..|s| - 1] == ls;
    assert s[|s| - 1] == l;
  }

  lemma NamedAfter(ls: seq<string>, l: string)
    ensures LastNamedExtinf(ls + [l]) == if KindOf(l) == ExtinfLine && HasComma(l) then |ls| else LastNamedExtinf(ls)
  {
    var s := ls + [l];
    assert s[..|s| - 1] == ls;
    assert s[|s| - 1] == l;
  }

  lemma {:induction false} FirstExtinfAfter(ls: seq<string>, l: string, lo: nat)
    requires lo <= |ls|
    ensures FirstExtinfFrom(ls + [l], lo) == (if FirstExtinfFrom(ls, lo) >= 0 then FirstExtinfFrom(ls, lo)
                                              else if KindOf(l) == ExtinfLine then |ls| else -1)
  {
    var s := ls + [l];
    assert s[..|s| - 1] == ls;
  }

  /** Reading a URL line appends its channel. */
  lemma {:induction false} EmitUrlLine(lines: seq<string>, i: nat, channels: seq<Channel>)
    requires i < |lines| && KindOf(lines[i]) == UrlLine
    requires EmittedUpTo(lines, i, channels)
    ensures EmittedUpTo(lines, i + 1, channels + [ChannelForUrlLine(lines[..i], lines[i])])
  {
    CountStep(lines, i);
    var cs := channels + [ChannelForUrlLine(lines[..i], lines[i])];
    forall j | 0 <= j < i + 1 && KindOf(lines[j]) == UrlLine
      ensures CountUrlLines(lines[..j]) < |cs|
      ensures cs[CountUrlLines(lines[..j])] == ChannelForUrlLine(lines[..j], lines[j])
    {
      if j < i {
        assert CountUrlLines(lines[..j]) < |channels|;
        assert cs[CountUrlLines(lines[..j])] == channels[CountUrlLines(lines[..j])];
      } else {
        assert CountUrlLines(lines[..j]) == |channels|;
        assert cs[|channels|] == ChannelForUrlLine(lines[..i], lines[i]);
      }
    }
  }

  /** Reading any other line emits nothing. */
  lemma {:induction false} SkipLine(lines: seq<string>, i: nat, channels: seq<Channel>)
    requires i < |lines| && KindOf(lines[i]) != UrlLine
    requires EmittedUpTo(lines, i, channels)
    ensures EmittedUpTo(lines, i + 1, channels)
  {
    CountStep(lines, i);
  }

  /** A source names the entry with a non-empty string exactly when there is an entry. */
  lemma SourceNameEmpty(src: NameSource)
    requires src.NamedAt? ==> HasComma(src.line)
    ensures SourceName(src) == "" <==> src == NoEntry
  {
    match src
    case NoEntry =>
    case NamedAt(c, _) => assert |ChannelPlaceholder(c)| > 0;
    case FirstBareAt(f) => assert |ChannelPlaceholder(f)| > 0;
  }

  /** The three pieces of pending state do not move across a line that is neither #EXTINF nor URL. */
  lemma {:induction false} PendingAfterOther(ls: seq<string>, l: string)
    requires KindOf(l) == OtherLine
    ensures PendingName(ls + [l]) == PendingName(ls)
    ensures PendingLogo(ls + [l]) == PendingLogo(ls)
    ensures PendingGroup(ls + [l]) == PendingGroup(ls)
  {
    IndicesAfter(ls, l);
    SourceAfterOther(ls, l);
    var e := LastOfKind(ls, ExtinfLine);
    if e >= 0 {
      assert (ls + [l])[e] == ls[e];
    }
  }

  lemma SourceAfterOther(ls: seq<string>, l: string)
    requires KindOf(l) == OtherLine
    ensures PendingSource(ls + [l]) == PendingSource(ls)
  {
    IndicesAfter(ls, l);
    var s := ls + [l];
    var u := LastOfKind(ls, UrlLine);
    var e := LastOfKind(ls, ExtinfLine);
    assert LastOfKind(s, UrlLine) == u && LastOfKind(s, ExtinfLine) == e;
    if e > u {
      var c := LastNamedExtinf(ls);
      assert LastNamedExtinf(s) == c;
      if c > u {
        assert s[c] == ls[c];
      } else {
        FirstExtinfAfter(ls, l, u + 1);
      }
    }
  }

  /** After a URL line the name and logo are cleared while the group carries over. */
  lemma {:induction false} PendingAfterUrl(ls: seq<string>, l: string)
    requires KindOf(l) == UrlLine
    ensures PendingName(ls + [l]) == ""
    ensures PendingLogo(ls + [l]) == ""
    ensures PendingGroup(ls + [l]) == PendingGroup(ls)
  {
    IndicesAfter(ls, l);
    assert PendingSource(ls + [l]) == NoEntry;
  }

  /**
   * An #EXTINF line overwrites logo and group with its own attributes; it
   * overwrites the name when it has a comma, and an empty name becomes
   * "Channel n" for this line.
   */
  lemma {:induction false} PendingAfterExtinf(ls: seq<string>, l: string)
    requires KindOf(l) == ExtinfLine
    ensures PendingLogo(ls + [l]) == LogoAttr(l)
    ensures PendingGroup(ls + [l]) == GroupAttr(l)
    ensures PendingName(ls + [l]) ==
              var n := if HasComma(l) then ExtinfName(l) else PendingName(ls);
              if n == "" then ChannelPlaceholder(|ls|) else n
  {
    IndicesAfter(ls, l);
    assert (ls + [l])[|ls|] == l;
    if HasComma(l) {
      NameAfterNamedExtinf(ls, l);
    } else {
      NameAfterBareExtinf(ls, l);
    }
  }

  /** An #EXTINF line with a comma names the entry after its last comma, or "Channel n". */
  lemma NameAfterNamedExtinf(ls: seq<string>, l: string)
    requires KindOf(l) == ExtinfLine && HasComma(l)
    ensures PendingName(ls + [l]) == if ExtinfName(l) != "" then ExtinfName(l) else ChannelPlaceholder(|ls|)
  {
    IndicesAfter(ls, l);
    var s := ls + [l];
    assert s[|ls|] == l;
    assert LastOfKind(s, ExtinfLine) == |ls| && LastNamedExtinf(s) == |ls|;
    assert PendingSource(s) == NamedAt(|ls|, l);
  }

  /** An #EXTINF line without a comma keeps the pending name, or starts one as "Channel n". */
  lemma NameAfterBareExtinf(ls: seq<string>, l: string)
    requires KindOf(l) == ExtinfLine && !HasComma(l)
    ensures PendingName(ls + [l]) == if PendingName(ls) == "" then ChannelPlaceholder(|ls|) else PendingName(ls)
  {
    var u := LastOfKind(ls, UrlLine);
    SourceNameEmpty(PendingSource(ls));
    if LastNamedExtinf(ls) > u {
      NamedWindowKept(ls, l);
    } else if LastOfKind(ls, ExtinfLine) <= u {
      FreshWindow(ls, l);
    } else {
      UnnamedWindowKept(ls, l);
    }
  }

  /** A bare #EXTINF opening the window is named "Channel n" after itself. */
  lemma FreshWindow(ls: seq<string>, l: string)
    requires KindOf(l) == ExtinfLine && !HasComma(l)
    requires LastOfKind(ls, ExtinfLine) <= LastOfKind(ls, UrlLine)
    ensures PendingSource(ls) == NoEntry && PendingSource(ls + [l]) == FirstBareAt(|ls|)
  {
    var u := LastOfKind(ls, UrlLine);
    LastAfter(ls, l, UrlLine);
    LastAfter(ls, l, ExtinfLine);
    NamedAfter(ls, l);
    NamedIsExtinf(ls);
    NoExtinfFrom(ls, u + 1);
    FirstExtinfAfter(ls, l, u + 1);
  }

  /** No #EXTINF after the last one. */
  lemma NoExtinfFrom(ls: seq<string>, lo: nat)
    requires LastOfKind(ls, ExtinfLine) < lo
    ensures FirstExtinfFrom(ls, lo) == -1
  {
  }

  /** A window of bare #EXTINF lines stays named after its first one. */
  lemma UnnamedWindowKept(ls: seq<string>, l: string)
    requires KindOf(l) == ExtinfLine && !HasComma(l)
    requires LastNamedExtinf(ls) <= LastOfKind(ls, UrlLine) < LastOfKind(ls, ExtinfLine)
    ensures PendingSource(ls + [l]) == PendingSource(ls) && PendingSource(ls).FirstBareAt?
  {
    var u := LastOfKind(ls, UrlLine);
    LastAfter(ls, l, UrlLine);
    LastAfter(ls, l, ExtinfLine);
    NamedAfter(ls, l);
    SomeExtinfFrom(ls, u + 1);
    FirstExtinfAfter(ls, l, u + 1);
  }

  /** The last #EXTINF, when at or after lo, bounds the first one from lo. */
  lemma SomeExtinfFrom(ls: seq<string>, lo: nat)
    requires lo <= LastOfKind(ls, ExtinfLine)
    ensures FirstExtinfFrom(ls, lo) >= 0
  {
    var e := LastOfKind(ls, ExtinfLine);
    assert KindOf(ls[e]) == ExtinfLine;
  }

  /** A named #EXTINF is an #EXTINF, so it is never after the last one. */
  lemma NamedIsExtinf(ls: seq<string>)
    ensures LastNamedExtinf(ls) <= LastOfKind(ls, ExtinfLine)
  {
    var c := LastNamedExtinf(ls);
    if c >= 0 {
      assert KindOf(ls[c]) == ExtinfLine;
    }
  }

  /** When the window already holds a named #EXTINF, a bare one keeps it. */
  lemma NamedWindowKept(ls: seq<string>, l: string)
    requires KindOf(l) == ExtinfLine && !HasComma(l)
    requires LastNamedExtinf(ls) > LastOfKind(ls, UrlLine)
    ensures PendingSource(ls + [l]) == PendingSource(ls) && PendingSource(ls).NamedAt?
  {
    IndicesAfter(ls, l);
    var s := ls + [l];
    var c := LastNamedExtinf(ls);
    assert s[c] == ls[c];
    assert LastOfKind(ls, ExtinfLine) >= c;
  }

  /** A URL line reaches the trimmed url "http…", free of `|`. */
  lemma UrlOfUrlLine(line: string)
    requires KindOf(line) == UrlLine
    ensures var url := Trim(Split(Trim(line), '|')[0]);
            StartsWith(url, "http") && '|' !in url
  {
    var t := Trim(line);
    assert t[..4] == "http";
    var p := Split(t, '|')[0];
    FirstPartKeepsPrefix(t, '|', 4);
    assert p[..4] == "http";
    TrimKeepsPrefix(p, 4);
    TrimCharacters(p);
  }

  /** The first part of a split is at least as long as a delimiter-free prefix. */
  lemma FirstPartKeepsPrefix(t: string, d: char, n: nat)
    requires n <= |t| && forall k :: 0 <= k < n ==> t[k] != d
    ensures n <= |Split(t, d)[0]| && Split(t, d)[0][..n] == t[..n]
  {
    SplitHead(t, d);
    var p := Split(t, d)[0];
    assert n <= |p|;
    assert p == t[..|p|];
  }

  /** Trimming keeps a prefix that starts and ends with non-whitespace. */
  lemma TrimKeepsPrefix(p: string, n: nat)
    requires 0 < n <= |p| && !IsWhitespace(p[0]) && !IsWhitespace(p[n - 1])
    ensures n <= |Trim(p)| && Trim(p)[..n] == p[..n]
  {
    assert TrimStart(p) == p;
    TrimEndShape(p);
    var r := TrimEnd(p);
    assert Trim(p) == r;
    assert !IsWhitespace(p[n - 1]);
    assert n <= |r|;
    assert r[..n] == p[..|r|][..n] == p[..n];
  }

  /** What every emitted channel looks like, whatever the lines before its URL line. */
  lemma ChannelForUrlLineShape(before: seq<string>, line: string)
    requires KindOf(line) == UrlLine
    ensures var c := ChannelForUrlLine(before, line);
            && StartsWith(c.url, "http") && '|' !in c.url
            && c.name != ""
            && c.origin == ""
            && (c.userAgent == "Chrome" || c.userAgent == "Default")
  {
    UrlOfUrlLine(line);
  }

  /** A URL line read earlier has its channel at a smaller position: channels come out in line order. */
  lemma {:induction false} CountMonotone(ls: seq<string>, a: nat, b: nat)
    requires a < b <= |ls| && KindOf(ls[a]) == UrlLine
    ensures CountUrlLines(ls[..a]) < CountUrlLines(ls[..b])
    decreases b
  {
    assert ls[..b][..b - 1] == ls[..b - 1];
    if a < b - 1 {
      CountMonotone(ls, a, b - 1);
    }
  }

  /** Every position below the count belongs to some URL line. */
  lemma {:induction false} CountReached(ls: seq<string>, k: nat)
    requires k < CountUrlLines(ls)
    ensures exists j :: 0 <= j < |ls| && KindOf(ls[j]) == UrlLine && CountUrlLines(ls[..j]) == k
    decreases |ls|
  {
    var init := ls[..|ls| - 1];
    if k < CountUrlLines(init) {
      CountReached(init, k);
      var j :| 0 <= j < |init| && KindOf(init[j]) == UrlLine && CountUrlLines(init[..j]) == k;
      assert init[..j] == ls[..j];
      assert ls[j] == init[j];
    } else {
      assert ls[..|ls| - 1] == init;
    }
  }

  /**
   * Every channel of an M3U parse comes from one URL line: its url starts
   * with "http" and has no `|`, its name is never empty, its origin is "".
   */
  lemma M3UChannelsShape(lines: seq<string>, channels: seq<Channel>)
    requires IsM3UParse(lines, channels)
    ensures forall k :: 0 <= k < |channels| ==>
              && StartsWith(channels[k].url, "http") && '|' !in channels[k].url
              && channels[k].name != "" && channels[k].origin == ""
  {
    forall k | 0 <= k < |channels|
      ensures StartsWith(channels[k].url, "http") && '|' !in channels[k].url
      ensures channels[k].name != "" && channels[k].origin == ""
    {
      assert lines[..|lines|] == lines;
      CountReached(lines, k);
      var j :| 0 <= j < |lines| && KindOf(lines[j]) == UrlLine && CountUrlLines(lines[..j]) == k;
      ChannelForUrlLineShape(lines[..j], lines[j]);
    }
  }

  /** Two URL lines give channels in their line order. */
  lemma M3UChannelsInLineOrder(lines: seq<string>, channels: seq<Channel>, a: nat, b: nat)
    requires IsM3UParse(lines, channels)
    requires a < b < |lines| && KindOf(lines[a]) == UrlLine && KindOf(lines[b]) == UrlLine
    ensures CountUrlLines(lines[..a]) < CountUrlLines(lines[..b]) < |channels|
    ensures channels[CountUrlLines(lines[..a])] == ChannelForUrlLine(lines[..a], lines[a])
    ensures channels[CountUrlLines(lines[..b])] == ChannelForUrlLine(lines[..b], lines[b])
  {
    CountMonotone(lines, a, b);
  }

  /** One more `|` parameter: at most one of the three prefixes starts it, and it decides that value. */
  lemma StreamParamAfter(read: seq<string>, param: string)
    ensures !(StartsWithIgnoreCase(param, "Referer=") && StartsWithIgnoreCase(param, "cookie="))
    ensures !(StartsWithIgnoreCase(param, "Referer=") && StartsWithIgnoreCase(param, "User-Agent="))
    ensures !(StartsWithIgnoreCase(param, "cookie=") && StartsWithIgnoreCase(param, "User-Agent="))
    ensures LastParamValue(read + [param], "Referer=") ==
              if StartsWithIgnoreCase(param, "Referer=") then param[8..] else LastParamValue(read, "Referer=")
    ensures LastParamValue(read + [param], "cookie=") ==
              if StartsWithIgnoreCase(param, "cookie=") then param[7..] else LastParamValue(read, "cookie=")
    ensures HasParam(read + [param], "User-Agent=") ==
              (StartsWithIgnoreCase(param, "User-Agent=") || HasParam(read, "User-Agent="))
  {
    ParamAfter(read, param, "Referer=");
    ParamAfter(read, param, "cookie=");
    ParamAfter(read, param, "User-Agent=");
    FirstLetterExcludes(param, "Referer=", "cookie=");
    FirstLetterExcludes(param, "Referer=", "User-Agent=");
    FirstLetterExcludes(param, "cookie=", "User-Agent=");
  }

  /** Inner loop over the `|` parameters of a URL line: referer, cookie and user agent. */
  method ParseStreamParams(urlParts: seq<string>) returns (referer: string, cookie: string, userAgent: string)
    requires |urlParts| >= 1
    ensures referer == LastParamValue(TrimAll(urlParts[1..]), "Referer=")
    ensures cookie == LastParamValue(TrimAll(urlParts[1..]), "cookie=")
    ensures userAgent == if HasParam(TrimAll(urlParts[1..]), "User-Agent=") then "Chrome" else DefaultUserAgent
  {
    referer, cookie, userAgent := "", "", DefaultUserAgent;
    ghost var read: seq<string> := [];
    var j := 1;
    while j < |urlParts|
      invariant 1 <= j <= |urlParts|
      invariant read == TrimAll(urlParts[1..j])
      invariant referer == LastParamValue(read, "Referer=")
      invariant cookie == LastParamValue(read, "cookie=")
      invariant userAgent == if HasParam(read, "User-Agent=") then "Chrome" else DefaultUserAgent
    {
      var param := Trim(urlParts[j]);
      assert urlParts[1..j + 1] == urlParts[1..j] + [urlParts[j]];
      TrimAllAppend(urlParts[1..j], urlParts[j]);
      StreamParamAfter(read, param);
      if StartsWithIgnoreCase(param, "Referer=") {
        referer := param[8..];
      } else if StartsWithIgnoreCase(param, "cookie=") {
        cookie := param[7..];
      } else if StartsWithIgnoreCase(param, "User-Agent=") {
        userAgent := "Chrome";
      }
      read := read + [param];
      j := j + 1;
    }
    assert urlParts[1..j] == urlParts[1..];
  }

  /** The #EXTINF branch: logo and group are overwritten, the name when the line has a comma. */
  method ReadExtinfLine(lines: seq<string>, i: nat, name: string, logo: string, group: string)
    returns (name': string, logo': string, group': string)
    requires i < |lines| && KindOf(lines[i]) == ExtinfLine
    requires name == PendingName(lines[..i])
    ensures name' == PendingName(lines[..i + 1])
    ensures logo' == PendingLogo(lines[..i + 1])
    ensures group' == PendingGroup(lines[..i + 1])
  {
    var line := Trim(lines[i]);
    assert lines[..i + 1] == lines[..i] + [lines[i]];
    PendingAfterExtinf(lines[..i], lines[i]);
    logo' := FirstMatch.Capture(line, LogoKey, Quote, true).GetOr("");
    group' := FirstMatch.Capture(line, GroupKey, Quote, true).GetOr("");
    name' := name;
    var commaIndex := LastIndexOf(line, ',');
    if commaIndex != -1 {
      name' := Trim(line[commaIndex + 1..]);
    }
    if name' == "" {
      name' := ChannelPlaceholder(i);
    }
  }

  /** The URL branch: the channel built from the pending state and the line's `|` parameters. */
  method ReadUrlLine(lines: seq<string>, i: nat, name: string, logo: string, group: string)
    returns (channel: Channel)
    requires i < |lines| && KindOf(lines[i]) == UrlLine
    requires name == PendingName(lines[..i])
    requires logo == PendingLogo(lines[..i])
    requires group == PendingGroup(lines[..i])
    ensures channel == ChannelForUrlLine(lines[..i], lines[i])
  {
    var line := Trim(lines[i]);
    var channelName := name;
    if channelName == "" {
      channelName := StreamPlaceholder(i);
    }
    var urlParts := Split(line, '|');
    var url := Trim(urlParts[0]);
    var referer, cookie, userAgent := ParseStreamParams(urlParts);
    channel := Channel(
      name := channelName,
      url := url,
      logo := logo,
      referer := referer,
      cookie := cookie,
      userAgent := userAgent,
      groupTitle := group);
  }

  method ParseM3UChannels(content: string) returns (channels: seq<Channel>)
    ensures IsM3UParse(Lines(content), channels)
  {
    channels := [];
    var lines := Lines(content);
    var currentName, currentLogo, currentGroup := "", "", "";
    for i := 0 to |lines|
      invariant EmittedUpTo(lines, i, channels)
      invariant currentName == PendingName(lines[..i])
      invariant currentLogo == PendingLogo(lines[..i])
      invariant currentGroup == PendingGroup(lines[..i])
    {
      var line := Trim(lines[i]);
      if StartsWith(line, "#EXTINF:") {
        SkipLine(lines, i, channels);
        currentName, currentLogo, currentGroup := ReadExtinfLine(lines, i, currentName, currentLogo, currentGroup);
      } else if StartsWith(line, "http") || StartsWith(line, "https") {
        var channel := ReadUrlLine(lines, i, currentName, currentLogo, currentGroup);
        EmitUrlLine(lines, i, channels);
        channels := channels + [channel];
        assert lines[..i + 1] == lines[..i] + [lines[i]];
        PendingAfterUrl(lines[..i], lines[i]);
        currentName := "";
        currentLogo := "";
      } else {
        SkipLine(lines, i, channels);
        assert lines[..i + 1] == lines[..i] + [lines[i]];
        PendingAfterOther(lines[..i], lines[i]);
      }
    }
    assert lines[..|lines|] == lines;
  }

  // ---------------------------------------------------------------------
  // Format dispatch
  // ---------------------------------------------------------------------

  datatype Format = JsonFormat | M3UFormat | UnknownFormat

  /** The `when` of parsePlaylistContent. */
  function DetectFormat(content: string): Format {
    var t := Trim(content);
    if StartsWith(t, "[") || StartsWith(t, "{") then JsonFormat
    else if Contains(content, "#EXTINF") then M3UFormat
    else UnknownFormat
  }

  /**
   * The format is decided by the first character that is not whitespace:
   * '[' or '{' takes the JSON path whatever else the text holds, and any
   * other character leaves the M3U path to the "#EXTINF" test.
   */
  lemma FormatByFirstCharacter(content: string, k: nat)
    requires k < |content| && !IsWhitespace(content[k])
    requires forall j :: 0 <= j < k ==> IsWhitespace(content[j])
    ensures DetectFormat(content) == JsonFormat <==> content[k] == '[' || content[k] == '{'
    ensures content[k] != '[' && content[k] != '{' ==>
              (DetectFormat(content) == M3UFormat <==> Contains(content, "#EXTINF"))
  {
    FirstOfTrim(content, k);
    var t := Trim(content);
    assert t[..1] == [content[k]];
  }

  /** The trimmed text starts with the first character that is not whitespace. */
  lemma FirstOfTrim(s: string, k: nat)
    requires k < |s| && !IsWhitespace(s[k])
    requires forall j :: 0 <= j < k ==> IsWhitespace(s[j])
    ensures |Trim(s)| > 0 && Trim(s)[0] == s[k]
  {
    TrimStartShape(s);
    var r := TrimStart(s);
    var m := |s| - |r|;
    assert m <= k;
    assert r[0] == s[m];
    assert m == k;
    TrimEndShape(r);
    assert !IsWhitespace(r[0]);
  }

  /**
   * parsePlaylistContent. `decoded` is what org.json makes of content when it
   * is handed to the JSON path; `sourceUrl` is unused by the source as well.
   * JSONArray(content) throws on text that starts with '{' (a JSON array
   * must start with '['), so such content decodes to Malformed, and a
   * playlist written as one JSON object yields no channels.
   */
  method ParsePlaylistContent(content: string, sourceUrl: string, decoded: JsonDocument) returns (channels: seq<Channel>)
    requires StartsWith(Trim(content), "{") ==> decoded.Malformed?
    ensures DetectFormat(content) == JsonFormat ==> channels == JsonChannels(decoded)
    ensures StartsWith(Trim(content), "{") ==> channels == []
    ensures DetectFormat(content) == M3UFormat ==> IsM3UParse(Lines(content), channels)
    ensures DetectFormat(content) == UnknownFormat ==> channels == []
  {
    channels := [];
    var trimmed := Trim(content);
    if StartsWith(trimmed, "[") || StartsWith(trimmed, "{") {
      var parsed := ParseJsonChannels(decoded);
      channels := channels + parsed;
    } else if Contains(content, "#EXTINF") {
      var parsed := ParseM3UChannels(content);
      channels := channels + parsed;
    }
  }
}
