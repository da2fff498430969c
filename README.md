# CookieM3U8Player, modelled in Dafny

CookieM3U8Player is an Android IPTV player. This project models the part of it
that works on text and on a few pieces of state:

- the channel and playlist-entry records (`Models.kt`);
- the playlist parser (`PlaylistFetcher.kt`). It picks JSON or M3U by looking
  at the content. It maps JSON array elements to channels. It runs the M3U
  line-by-line state machine, which carries the pending name, logo and group
  from an `#EXTINF:` line to the next `http…` line and splits `|Key=Value`
  suffixes off the URL;
- the stream-URL helpers of `MainActivity.kt`: the `|`-embedded header map,
  the `drmScheme=` / `drmLicense=` extraction, the ClearKey `data:` license
  URI (UTF-8, then Base64 as in section 4 of RFC 4648 with no line breaks) and
  the decisions of `startPlayback` (header override, user-agent table, DRM
  gate, DASH or HLS);
- the channel list screen (`ChannelBrowserActivity.kt`): a class holding the
  three mutable lists `channels`, `filteredChannels` and `groups`, with the
  methods that clear and refill them;
- the player screen (`PlayerActivity.kt`), taken narrowly: its launch extras,
  the request headers, the user-agent table, the lock / fullscreen /
  picture-in-picture flags as a class, and the 32-bit integer arithmetic of
  the volume gesture.

Files and modules:

| file | module | contents |
|---|---|---|
| `wrappers.dfy` | `Wrappers` | `Option` |
| `text.dfy` | `Text` | Kotlin `trim`, `lines`, `split`, `startsWith`/`contains` ignoring case, `lastIndexOf`, decimal rendering, `|Key=Value` lookups |
| `seqs.dfy` | `Seqs` | `filter` and subsequences |
| `first_match.dfy` | `FirstMatch` | first-match semantics of the patterns `key([^…]+)` and `key"([^"]+)"` |
| `models.dfy` | `Models` | `Channel`, `PlaylistEntry` |
| `playlist_fetcher.dfy` | `PlaylistFetcher` | format dispatch, JSON mapping, M3U parser |
| `base64.dfy` | `Base64` | UTF-8 encoding, RFC 4648 Base64 and a strict decoder |
| `main_activity.dfy` | `MainActivity` | URL headers, DRM extraction, ClearKey URI, `startPlayback` decisions |
| `channel_browser.dfy` | `ChannelBrowser` | the `ChannelBrowser` class and the group list |
| `player.dfy` | `Player` | extras, request, `PlayerControls` class, volume arithmetic |

How each operation is specified:

- The M3U parser is a method with a loop. It is proved against `IsM3UParse`, a
  declarative description: one channel per URL line, at the position given by
  the number of URL lines before it. Each channel is `ChannelForUrlLine(before,
  line)`. Its pending name, logo and group are given by where they come from
  (the last `#EXTINF:` after the last URL line, and so on), not by replaying
  the loop.
- `parseUrlWithHeaders` is a loop over the parts. It is proved against
  `HeadersOf`, which says exactly which keys are present and which part
  each value comes from.
- The class methods in `ChannelBrowser` and `Player` state their new state
  through specification functions (`GroupList`, `GroupSelection`,
  `SearchResult`, `ToggledLock`, …). The lemmas prove what the source promises
  about those functions.
- The ClearKey URI is proved against a strict Base64 decoder: decoding the
  payload gives back the UTF-8 bytes of the JSON license.

Behaviour of the code worth knowing:

- The M3U URL test `startsWith("http") || startsWith("https")` is one test.
  The second disjunct is implied by the first.
- `String.split("|")` keeps empty parts, trailing ones included.
- On the player screen the DRM branch of `startPlayback` has an empty body. A
  `drmScheme`/`drmLicense` in the URL has no effect there, and the player
  sends the URL to the media player without any `|` parsing.
- The group has no reset after a URL line. It carries over to later URL lines
  until the next `#EXTINF:`.

## Model

| member | source | states |
|---|---|---|
| Models.ChannelDefaults | app/src/main/java/com/example/cookiem3u8player/Models.kt:7-16 | a Channel built from name and url alone has empty logo, cookie, referer, origin and group, and user agent "Default" |
| Models.ChannelEquality | app/src/main/java/com/example/cookiem3u8player/Models.kt:7-16 | two channels are equal exactly when all eight fields are (data-class equality) |
| Models.PlaylistEntryDefaults | app/src/main/java/com/example/cookiem3u8player/Models.kt:29-37 | an entry built with no arguments has every field "" except userAgent "Default" |
| Models.PlaylistEntryAssignUrl | app/src/main/java/com/example/cookiem3u8player/Models.kt:29-37 | assigning the `var` url changes that field and no other |
| Text.TrimStartShape | app/src/main/java/com/example/cookiem3u8player/PlaylistFetcher.kt:105 | trimming the front removes exactly a whitespace prefix and stops at a non-whitespace character |
| Text.TrimEndShape | app/src/main/java/com/example/cookiem3u8player/PlaylistFetcher.kt:105 | trimming the back removes exactly a whitespace suffix and stops at a non-whitespace character |
| Text.TrimCharacters | app/src/main/java/com/example/cookiem3u8player/PlaylistFetcher.kt:135 | every character of the trimmed text occurs in the original |
| Text.Split | app/src/main/java/com/example/cookiem3u8player/PlaylistFetcher.kt:134 | split gives at least one part and no part contains the delimiter |
| Text.SplitHead | app/src/main/java/com/example/cookiem3u8player/PlaylistFetcher.kt:134 | the first part is the text up to the first delimiter, and a text without the delimiter gives itself alone |
| Text.SplitAfterPart | app/src/main/java/com/example/cookiem3u8player/PlaylistFetcher.kt:134 | a delimiter-free piece followed by the delimiter becomes the first part, and the rest splits on its own |
| Text.JoinSplit | app/src/main/java/com/example/cookiem3u8player/MainActivity.kt:89 | joining the parts of a split with the delimiter gives back the text, so nothing is lost |
| Text.Lines | app/src/main/java/com/example/cookiem3u8player/PlaylistFetcher.kt:99 | lines() gives at least one line and no line holds '\n' or '\r' |
| Text.JoinLines | app/src/main/java/com/example/cookiem3u8player/PlaylistFetcher.kt:99 | joining the lines with '\n' gives the text back with every "\r\n" and lone '\r' turned into '\n', so only the line breaks are lost |
| Text.JoinLinesNoCarriageReturn | app/src/main/java/com/example/cookiem3u8player/PlaylistFetcher.kt:99 | for a text without '\r', joining its lines with '\n' gives the text back exactly |
| Text.LastIndexOf | app/src/main/java/com/example/cookiem3u8player/PlaylistFetcher.kt:118 | lastIndexOf gives the largest index holding the character, or -1 when there is none |
| Text.NatToString | app/src/main/java/com/example/cookiem3u8player/PlaylistFetcher.kt:124 | the rendering of the line number in "Channel n" is never empty |
| Text.NatToStringDigits | app/src/main/java/com/example/cookiem3u8player/PlaylistFetcher.kt:124 | the rendering is decimal digits only, has no leading zero unless n is 0, and reads back as n |
| Text.TrimAllShape | app/src/main/java/com/example/cookiem3u8player/PlaylistFetcher.kt:143 | one trimmed part per parameter; each is empty or starts and ends with non-whitespace, and sits in its parameter with only whitespace before and after it |
| Text.AsciiLowerStringMeaning | app/src/main/java/com/example/cookiem3u8player/MainActivity.kt:112 | after lower-casing no 'A'..'Z' remains, each capital becomes its small letter, every other character is unchanged, and a case-ignoring prefix test is a plain prefix test on the lower-cased texts |
| Text.ContainsIffOccurs | app/src/main/java/com/example/cookiem3u8player/MainActivity.kt:64 | a text contains another exactly when the other occurs at some position |
| Text.EverythingContainsEmpty | app/src/main/java/com/example/cookiem3u8player/ChannelBrowserActivity.kt:159-165 | every text contains the empty query, with and without ignoring case |
| Seqs.Filter | app/src/main/java/com/example/cookiem3u8player/ChannelBrowserActivity.kt:129 | filter keeps only elements that satisfy the predicate and never grows the list |
| Seqs.FilterMembers | app/src/main/java/com/example/cookiem3u8player/ChannelBrowserActivity.kt:129 | an element is in the filtered list exactly when it is in the list and satisfies the predicate |
| Seqs.FilterIsSubsequence | app/src/main/java/com/example/cookiem3u8player/ChannelBrowserActivity.kt:163-166 | the filtered list is an order-preserving subsequence of the list |
| Seqs.FilterKeepsAll | app/src/main/java/com/example/cookiem3u8player/ChannelBrowserActivity.kt:163-166 | a predicate every element satisfies keeps the whole list |
| Seqs.FilterAppend | app/src/main/java/com/example/cookiem3u8player/PlaylistFetcher.kt:86-88 | filtering a concatenation filters each part |
| Seqs.SubsequenceLength | app/src/main/java/com/example/cookiem3u8player/PlaylistFetcher.kt:86-88 | a subsequence is no longer than the list it is taken from |
| Seqs.SubsequenceReflexive | app/src/main/java/com/example/cookiem3u8player/ChannelBrowserActivity.kt:127 | a list is a subsequence of itself |
| FirstMatch.RunLength | app/src/main/java/com/example/cookiem3u8player/MainActivity.kt:111 | `[^&|]+` takes the longest run of characters outside the stop set |
| FirstMatch.FindFrom | app/src/main/java/com/example/cookiem3u8player/MainActivity.kt:111-112 | Regex.find returns the leftmost position where the pattern matches, or none when it matches nowhere |
| FirstMatch.CaptureIsLeftmostMatch | app/src/main/java/com/example/cookiem3u8player/PlaylistFetcher.kt:110-115 | the captured group is absent exactly when the pattern matches nowhere; otherwise it is the non-empty, stop-free group of the leftmost match |
| FirstMatch.MatchImpliesKeyOccurs | app/src/main/java/com/example/cookiem3u8player/MainActivity.kt:48-50 | a successful match implies the text contains the key |
| FirstMatch.KeyAtPosition | app/src/main/java/com/example/cookiem3u8player/MainActivity.kt:48 | the key at some position means the text contains the key |
| PlaylistFetcher.FormatByFirstCharacter | app/src/main/java/com/example/cookiem3u8player/PlaylistFetcher.kt:55-64 | the JSON path is taken exactly when the first non-whitespace character is '[' or '{', even if the text holds "#EXTINF"; otherwise the M3U path is taken exactly when the text contains "#EXTINF" |
| PlaylistFetcher.ParsePlaylistContent | app/src/main/java/com/example/cookiem3u8player/PlaylistFetcher.kt:51-67 | JSON content gives the JSON channels, and content starting with '{' gives none since it is no array; M3U content gives an M3U parse of its lines; anything else gives no channels |
| PlaylistFetcher.ScanEnd | app/src/main/java/com/example/cookiem3u8player/PlaylistFetcher.kt:74-75 | getJSONObject succeeds on every element before the first non-object and throws there |
| PlaylistFetcher.JsonCandidates | app/src/main/java/com/example/cookiem3u8player/PlaylistFetcher.kt:74-85 | one mapped channel per element that is read before the scan stops |
| PlaylistFetcher.ParseJsonChannels | app/src/main/java/com/example/cookiem3u8player/PlaylistFetcher.kt:69-95 | the loop collects, in order, the mapped channels with a non-empty url from the elements before the first non-object, and an undecodable document gives none |
| PlaylistFetcher.JsonFieldMapping | app/src/main/java/com/example/cookiem3u8player/PlaylistFetcher.kt:76-85 | url is "link", else "url", else ""; group is "group", else "category", else ""; name defaults to "Channel i" with the zero-based index; user agent defaults to "Default" |
| PlaylistFetcher.JsonOutputIsSubsequence | app/src/main/java/com/example/cookiem3u8player/PlaylistFetcher.kt:74-89 | every JSON channel has a url, the output is an order-preserving subsequence of the mapped elements and is no longer than the array |
| PlaylistFetcher.JsonStopsAtNonObject | app/src/main/java/com/example/cookiem3u8player/PlaylistFetcher.kt:72-94 | a non-object element ends the scan: the result is what the elements before it give |
| PlaylistFetcher.ScanEndIsFirstNonObject | app/src/main/java/com/example/cookiem3u8player/PlaylistFetcher.kt:74-75 | the scan ends exactly at the first non-object element |
| PlaylistFetcher.JsonEmptyLinkDrops | app/src/main/java/com/example/cookiem3u8player/PlaylistFetcher.kt:78-88 | a "link" key with an empty value wins over "url", so the record is dropped |
| PlaylistFetcher.JsonFieldsRoundTrip | app/src/main/java/com/example/cookiem3u8player/PlaylistFetcher.kt:76-85 | a channel written as a JSON object with its eight fields reads back as the same channel |
| PlaylistFetcher.JsonRoundTrip | app/src/main/java/com/example/cookiem3u8player/PlaylistFetcher.kt:74-89 | a list of channels written as a JSON array reads back as the channels that have a url, in order |
| PlaylistFetcher.JsonExample | app/src/main/java/com/example/cookiem3u8player/PlaylistFetcher.kt:76-89 | an array of one record with an empty url and one with a link gives exactly the second channel |
| PlaylistFetcher.CountUrlLines | app/src/main/java/com/example/cookiem3u8player/PlaylistFetcher.kt:128 | the number of URL lines in a stretch is at most its length |
| PlaylistFetcher.LastOfKind | app/src/main/java/com/example/cookiem3u8player/PlaylistFetcher.kt:107-128 | the index of the last line of a kind, or -1, with no later line of that kind |
| PlaylistFetcher.LastNamedExtinf | app/src/main/java/com/example/cookiem3u8player/PlaylistFetcher.kt:118-121 | the index of the last `#EXTINF:` line that has a comma, or -1 |
| PlaylistFetcher.FirstExtinfFrom | app/src/main/java/com/example/cookiem3u8player/PlaylistFetcher.kt:123-124 | the index of the first `#EXTINF:` line at or after a position, or -1 |
| PlaylistFetcher.CountStep | app/src/main/java/com/example/cookiem3u8player/PlaylistFetcher.kt:104-128 | reading a line adds one to the URL-line count exactly when it is a URL line |
| PlaylistFetcher.IndicesAfter | app/src/main/java/com/example/cookiem3u8player/PlaylistFetcher.kt:104-108 | how the last-line indices move when one more line is read |
| PlaylistFetcher.FirstExtinfAfter | app/src/main/java/com/example/cookiem3u8player/PlaylistFetcher.kt:104-108 | how the first `#EXTINF:` index moves when one more line is read |
| PlaylistFetcher.PendingAfterExtinf | app/src/main/java/com/example/cookiem3u8player/PlaylistFetcher.kt:108-126 | an `#EXTINF:` line sets logo and group to its attributes, sets the name to the text after its last comma, keeps the pending name when it has no comma, and falls back to "Channel n" |
| PlaylistFetcher.PendingAfterUrl | app/src/main/java/com/example/cookiem3u8player/PlaylistFetcher.kt:169-171 | after a URL line the pending name and logo are "" and the group is unchanged |
| PlaylistFetcher.PendingAfterOther | app/src/main/java/com/example/cookiem3u8player/PlaylistFetcher.kt:107-173 | a line that is neither `#EXTINF:` nor a URL line changes no pending state |
| PlaylistFetcher.EmitUrlLine | app/src/main/java/com/example/cookiem3u8player/PlaylistFetcher.kt:158-167 | appending the channel of a URL line keeps the one-channel-per-URL-line invariant |
| PlaylistFetcher.SkipLine | app/src/main/java/com/example/cookiem3u8player/PlaylistFetcher.kt:107-126 | a line that is not a URL line adds no channel and keeps the invariant |
| PlaylistFetcher.ParseStreamParams | app/src/main/java/com/example/cookiem3u8player/PlaylistFetcher.kt:136-156 | referer and cookie are the values of the last trimmed part starting, ignoring case, with "Referer=" / "cookie="; the user agent is "Chrome" exactly when some part starts with "User-Agent=", otherwise "Default" |
| PlaylistFetcher.ReadExtinfLine | app/src/main/java/com/example/cookiem3u8player/PlaylistFetcher.kt:108-126 | the `#EXTINF:` branch leaves name, logo and group equal to the pending state of the lines read so far |
| PlaylistFetcher.ReadUrlLine | app/src/main/java/com/example/cookiem3u8player/PlaylistFetcher.kt:128-166 | the URL branch builds exactly the channel `ChannelForUrlLine` gives for that line, "Stream n" when no name is pending |
| PlaylistFetcher.ParseM3UChannels | app/src/main/java/com/example/cookiem3u8player/PlaylistFetcher.kt:97-177 | one channel per trimmed line starting with "http", in line order, each the channel its URL line and the lines before it determine |
| PlaylistFetcher.UrlOfUrlLine | app/src/main/java/com/example/cookiem3u8player/PlaylistFetcher.kt:134-135 | the url taken from a URL line starts with "http" and contains no `|` |
| PlaylistFetcher.FirstPartKeepsPrefix | app/src/main/java/com/example/cookiem3u8player/PlaylistFetcher.kt:134-135 | the first part of a split keeps a prefix that holds no delimiter |
| PlaylistFetcher.TrimKeepsPrefix | app/src/main/java/com/example/cookiem3u8player/PlaylistFetcher.kt:135 | trimming keeps a prefix that starts and ends with non-whitespace |
| PlaylistFetcher.ChannelForUrlLineShape | app/src/main/java/com/example/cookiem3u8player/PlaylistFetcher.kt:128-166 | an emitted channel has a url starting with "http" without `|`, a non-empty name, origin "", and user agent "Chrome" or "Default" |
| PlaylistFetcher.CountMonotone | app/src/main/java/com/example/cookiem3u8player/PlaylistFetcher.kt:104-167 | an earlier URL line has fewer URL lines before it |
| PlaylistFetcher.CountReached | app/src/main/java/com/example/cookiem3u8player/PlaylistFetcher.kt:104-167 | every channel position belongs to some URL line |
| PlaylistFetcher.M3UChannelsShape | app/src/main/java/com/example/cookiem3u8player/PlaylistFetcher.kt:128-167 | every channel of an M3U parse has a url starting with "http" without `|`, a non-empty name and origin "" |
| PlaylistFetcher.M3UChannelsInLineOrder | app/src/main/java/com/example/cookiem3u8player/PlaylistFetcher.kt:104-167 | of two URL lines, the earlier gives the earlier channel, and both channels are in the output |
| Base64.DecodeEncodeSextet | app/src/main/java/com/example/cookiem3u8player/MainActivity.kt:126-128 | each six-bit value has one character of the RFC 4648 alphabet, which decodes back to it and is not the pad |
| Base64.EncodeLength | app/src/main/java/com/example/cookiem3u8player/MainActivity.kt:126-128 | the encoding has four characters per started group of three bytes, with no line breaks |
| Base64.DecodeEncode | app/src/main/java/com/example/cookiem3u8player/MainActivity.kt:126-128 | decoding the encoding gives back the bytes exactly |
| Base64.EncodeAlphabet | app/src/main/java/com/example/cookiem3u8player/MainActivity.kt:126-128 | every character of the encoding is from the alphabet or is '=' |
| Base64.Utf8Char | app/src/main/java/com/example/cookiem3u8player/MainActivity.kt:127 | toByteArray gives one to four UTF-8 bytes per character |
| Base64.Utf8CharBytes | app/src/main/java/com/example/cookiem3u8player/MainActivity.kt:127 | each character takes 1, 2, 3 or 4 bytes by its code range, with lead bytes 00..7F, C0..DF, E0..EF or F0..F4, continuation bytes 80..BF, and the bytes decode back to the character's code |
| Base64.Utf8Append | app/src/main/java/com/example/cookiem3u8player/MainActivity.kt:127 | the UTF-8 form of a concatenation is the concatenation of the UTF-8 forms |
| Base64.Utf8Ascii | app/src/main/java/com/example/cookiem3u8player/MainActivity.kt:127 | ASCII text turns into one byte per character, the character's code |
| MainActivity.PrefixesExclusive | app/src/main/java/com/example/cookiem3u8player/MainActivity.kt:95-104 | no part starts with two of the four header prefixes, so the order of the `when` branches does not matter |
| MainActivity.HeadersStep | app/src/main/java/com/example/cookiem3u8player/MainActivity.kt:93-105 | one pass of the loop body extends the header map from the parts read to one part more |
| MainActivity.ParseUrlWithHeaders | app/src/main/java/com/example/cookiem3u8player/MainActivity.kt:88-108 | the clean url is the untrimmed text before the first `|`; a header is present exactly when some later part starts with its prefix, ignoring case, and its value is the last such part minus the prefix; User-Agent is kept verbatim |
| MainActivity.HeadersOfUnique | app/src/main/java/com/example/cookiem3u8player/MainActivity.kt:88-108 | the header map the parts determine is unique |
| MainActivity.HeaderKeys | app/src/main/java/com/example/cookiem3u8player/MainActivity.kt:93-105 | the header keys are among Referer, Cookie, Origin and User-Agent |
| MainActivity.CleanUrlIsPrefix | app/src/main/java/com/example/cookiem3u8player/MainActivity.kt:89-90 | the clean url is a `|`-free prefix of the url and ends at the first `|` |
| MainActivity.PlainUrl | app/src/main/java/com/example/cookiem3u8player/MainActivity.kt:88-107 | a url without `|` comes back unchanged with no headers |
| MainActivity.ApplyHeaderArguments | app/src/main/java/com/example/cookiem3u8player/MainActivity.kt:26-30 | non-empty cookie, referer and origin arguments overwrite or add their entry; empty ones leave the map alone; no other entry changes |
| MainActivity.UserAgentFor | app/src/main/java/com/example/cookiem3u8player/MainActivity.kt:32-38 | a name other than Chrome, Firefox, Safari and Edge gets the system agent |
| MainActivity.BrowserAgentsDistinct | app/src/main/java/com/example/cookiem3u8player/MainActivity.kt:32-38 | the four browser names get four different strings |
| MainActivity.DrmExtraction | app/src/main/java/com/example/cookiem3u8player/MainActivity.kt:110-118 | scheme and license are "" exactly when `key=([^&|]+)` matches nowhere, and never contain '&' or '|' |
| MainActivity.DrmLicenseExample | app/src/main/java/com/example/cookiem3u8player/MainActivity.kt:115-118 | "drmLicense=ab&x" gives the license "ab" |
| MainActivity.SplitAtSoleDelimiter | app/src/main/java/com/example/cookiem3u8player/MainActivity.kt:121-124 | "kid:key" with one colon splits into kid and key |
| MainActivity.ClearKeyRoundTrip | app/src/main/java/com/example/cookiem3u8player/MainActivity.kt:120-133 | for "kid:key" the URI is the data prefix followed by text that decodes to the UTF-8 bytes of the ClearKey JSON for kid and key |
| MainActivity.ClearKeyNeedsTwoParts | app/src/main/java/com/example/cookiem3u8player/MainActivity.kt:121-132 | the URI is "" exactly when the license does not split into two parts at ':'; a license without a colon gives "" |
| MainActivity.ClearKeyAsciiPayload | app/src/main/java/com/example/cookiem3u8player/MainActivity.kt:127 | for an ASCII kid and key the encoded bytes are the JSON's character codes |
| MainActivity.DrmGateByExtraction | app/src/main/java/com/example/cookiem3u8player/MainActivity.kt:48-58 | a DRM configuration is attached exactly when the scheme extracts as "clearkey" and the license is non-empty, with the ClearKey URI of that license; the `contains` tests add nothing |
| MainActivity.StreamTypeByPosition | app/src/main/java/com/example/cookiem3u8player/MainActivity.kt:63-72 | DASH exactly when ".mpd" occurs at some position of the clean url, HLS otherwise |
| MainActivity.MpdInParameterIsHls | app/src/main/java/com/example/cookiem3u8player/MainActivity.kt:24-72 | a url whose ".mpd" sits only in a `|` parameter has the base as clean url and plays as HLS |
| MainActivity.StartPlayback | app/src/main/java/com/example/cookiem3u8player/MainActivity.kt:9-84 | the request uses the clean url, the table's user agent, the DRM gate and the stream type; its header keys are the embedded ones plus the non-empty arguments, whose values win; every other entry keeps the value of the last embedded part that sets it |
| ChannelBrowser.GroupList | app/src/main/java/com/example/cookiem3u8player/ChannelBrowserActivity.kt:98-99 | the group list starts with "All Channels" |
| ChannelBrowser.FirstWithGroup | app/src/main/java/com/example/cookiem3u8player/ChannelBrowserActivity.kt:101-105 | the index of the first channel with a group title, or -1 |
| ChannelBrowser.ChannelBrowser.constructor | app/src/main/java/com/example/cookiem3u8player/ChannelBrowserActivity.kt:24-26 | the three lists start empty |
| ChannelBrowser.ChannelBrowser.ExtractGroups | app/src/main/java/com/example/cookiem3u8player/ChannelBrowserActivity.kt:97-108 | groups becomes the group list of the channels; channels and filteredChannels are unchanged |
| ChannelBrowser.ChannelBrowser.FilterByGroup | app/src/main/java/com/example/cookiem3u8player/ChannelBrowserActivity.kt:123-133 | filteredChannels becomes every channel for "All Channels", else the channels of that group; channels and groups are unchanged |
| ChannelBrowser.ChannelBrowser.UpdateChannelList | app/src/main/java/com/example/cookiem3u8player/ChannelBrowserActivity.kt:135-139 | filteredChannels becomes an exact copy of channels; channels and groups are unchanged |
| ChannelBrowser.ChannelBrowser.SearchChannels | app/src/main/java/com/example/cookiem3u8player/ChannelBrowserActivity.kt:156-171 | filteredChannels becomes every channel for "", else the channels matching the query; channels and groups are unchanged |
| ChannelBrowser.ChannelBrowser.LoadChannels | app/src/main/java/com/example/cookiem3u8player/ChannelBrowserActivity.kt:76-78 | loading appends after the channels already there, shows them all and rebuilds the groups |
| ChannelBrowser.GroupListMembers | app/src/main/java/com/example/cookiem3u8player/ChannelBrowserActivity.kt:98-105 | a name is listed exactly when it is "All Channels" or the non-empty group title of some channel |
| ChannelBrowser.GroupListDistinct | app/src/main/java/com/example/cookiem3u8player/ChannelBrowserActivity.kt:101-105 | no name is listed twice and "" is never listed |
| ChannelBrowser.GroupListOrder | app/src/main/java/com/example/cookiem3u8player/ChannelBrowserActivity.kt:101-105 | the titles after the head are listed in the order of their first channel |
| ChannelBrowser.SameFirstInLonger | app/src/main/java/com/example/cookiem3u8player/ChannelBrowserActivity.kt:101-105 | a first occurrence in a prefix is the first occurrence in the whole list |
| ChannelBrowser.GroupSelectionMembers | app/src/main/java/com/example/cookiem3u8player/ChannelBrowserActivity.kt:128-130 | another group keeps exactly the channels with that group title, as a subsequence |
| ChannelBrowser.GroupSelectionIsSubsequence | app/src/main/java/com/example/cookiem3u8player/ChannelBrowserActivity.kt:123-130 | whatever the group, the shown list is a subsequence of the channels |
| ChannelBrowser.SearchResultMembers | app/src/main/java/com/example/cookiem3u8player/ChannelBrowserActivity.kt:161-168 | a non-empty query keeps exactly the channels whose name or group contains it ignoring case, as a subsequence |
| ChannelBrowser.EmptyQueryIsFilter | app/src/main/java/com/example/cookiem3u8player/ChannelBrowserActivity.kt:159-168 | the empty-query shortcut gives what the filter would give: all channels |
| ChannelBrowser.ListedGroupIsNonEmpty | app/src/main/java/com/example/cookiem3u8player/ChannelBrowserActivity.kt:114-130 | choosing a listed group other than the head shows at least one channel |
| ChannelBrowser.PlayChannelRoundTrip | app/src/main/java/com/example/cookiem3u8player/ChannelBrowserActivity.kt:173-183 | the player reads back every field playChannel sends, and plays exactly when the url is non-empty |
| Player.LaunchFromExtras | app/src/main/java/com/example/cookiem3u8player/PlayerActivity.kt:95-110 | playback starts exactly when the url extra is present and non-empty; a missing name is "Channel" and a missing user agent "Default" |
| Player.NoExtrasNoPlayback | app/src/main/java/com/example/cookiem3u8player/PlayerActivity.kt:95-110 | an intent without extras does not start playback |
| Player.GetUserAgentString | app/src/main/java/com/example/cookiem3u8player/PlayerActivity.kt:336-342 | every name but Chrome and Firefox gets "CookieM3U8Player/5.0" |
| Player.AgentTablesDiffer | app/src/main/java/com/example/cookiem3u8player/PlayerActivity.kt:336-342 | the player agrees with the main screen on Chrome and Firefox and differs on Safari and Edge; "Default" gets the app's own agent |
| Player.RequestHeaders | app/src/main/java/com/example/cookiem3u8player/PlayerActivity.kt:149-152 | Cookie, Referer and Origin are present exactly when their argument is non-empty, with it as value, and no other key is |
| Player.StartPlayback | app/src/main/java/com/example/cookiem3u8player/PlayerActivity.kt:145-188 | the request has the url as given, the table's user agent and exactly the non-empty header arguments |
| Player.ToggleLockEffect | app/src/main/java/com/example/cookiem3u8player/PlayerActivity.kt:238-251 | toggleLock flips the lock, shows controller and overlay exactly when unlocked, and leaves the fullscreen state alone |
| Player.ToggleLockTwice | app/src/main/java/com/example/cookiem3u8player/PlayerActivity.kt:238-251 | toggling twice restores the state exactly when the view agreed with the lock before |
| Player.ToggleFullscreenEffect | app/src/main/java/com/example/cookiem3u8player/PlayerActivity.kt:190-202 | toggleFullscreen flips the flag, requests landscape exactly when it becomes set, and leaves the lock alone |
| Player.ConfigurationChangeEffect | app/src/main/java/com/example/cookiem3u8player/PlayerActivity.kt:224-236 | a configuration change sets fullscreen to "is landscape", hides the system bars in landscape and leaves the requested orientation alone |
| Player.RotationDesync | app/src/main/java/com/example/cookiem3u8player/PlayerActivity.kt:190-236 | entering fullscreen by the button and then a portrait configuration (multi-window, or a platform that ignores the orientation request) leaves landscape requested while not fullscreen |
| Player.ControllerVisibilityEffect | app/src/main/java/com/example/cookiem3u8player/PlayerActivity.kt:135-142 | the overlay follows the controller only when unlocked, and a hidden controller hides the system bars |
| Player.PipEffect | app/src/main/java/com/example/cookiem3u8player/PlayerActivity.kt:353-357 | PiP hides controller and overlay and leaving it shows both; a screen locked before PiP comes back with its controller enabled |
| Player.PlayerControls.constructor | app/src/main/java/com/example/cookiem3u8player/PlayerActivity.kt:56-57 | the screen starts unlocked and not fullscreen, with controller and overlay shown |
| Player.PlayerControls.ToggleLock | app/src/main/java/com/example/cookiem3u8player/PlayerActivity.kt:238-251 | the fields become the toggled-lock state of the old ones |
| Player.PlayerControls.ToggleFullscreen | app/src/main/java/com/example/cookiem3u8player/PlayerActivity.kt:190-202 | the fields become the toggled-fullscreen state of the old ones |
| Player.PlayerControls.OnConfigurationChanged | app/src/main/java/com/example/cookiem3u8player/PlayerActivity.kt:224-236 | the fields become the state after a configuration change |
| Player.PlayerControls.OnPictureInPictureModeChanged | app/src/main/java/com/example/cookiem3u8player/PlayerActivity.kt:353-357 | the fields become the state after entering or leaving PiP |
| Player.PlayerControls.OnControllerVisibilityChanged | app/src/main/java/com/example/cookiem3u8player/PlayerActivity.kt:135-142 | the fields become the state after the controller shows or hides |
| Player.Wrap | app/src/main/java/com/example/cookiem3u8player/PlayerActivity.kt:308 | Int arithmetic is exact while the value fits in 32 bits |
| Player.CoerceIn | app/src/main/java/com/example/cookiem3u8player/PlayerActivity.kt:308 | coerceIn fails exactly when the range is empty, else gives a value in the range that is the input when the input lies in it |
| Player.AdjustVolume | app/src/main/java/com/example/cookiem3u8player/PlayerActivity.kt:304-311 | adjustVolume is rejected before the volume is set exactly when max is negative (max 0 is the divide-by-zero of `ZeroMaxDividesByZero`) |
| Player.VolumeInRange | app/src/main/java/com/example/cookiem3u8player/PlayerActivity.kt:304-311 | for every integer change the new volume lies in [0, max] |
| Player.VolumeIsClampedSum | app/src/main/java/com/example/cookiem3u8player/PlayerActivity.kt:308 | a change that does not overflow gives current + change clamped to [0, max] |
| Player.PercentInRange | app/src/main/java/com/example/cookiem3u8player/PlayerActivity.kt:310 | for 0 < max ≤ 21474836 the percent shown lies in [0, 100] and is 100 at full volume |
| Player.NoWrapBelowBound | app/src/main/java/com/example/cookiem3u8player/PlayerActivity.kt:310 | below that bound `newVol * 100 / max` does not wrap and is ordinary division |
| Player.PercentBound | app/src/main/java/com/example/cookiem3u8player/PlayerActivity.kt:310 | `v * 100 / max` lies in [0, 100] for 0 ≤ v ≤ max |
| Player.ZeroMaxDividesByZero | app/src/main/java/com/example/cookiem3u8player/PlayerActivity.kt:310 | with max 0 the volume becomes 0 and the percent divides by zero |
| Player.PercentOverflowExample | app/src/main/java/com/example/cookiem3u8player/PlayerActivity.kt:310 | past the bound the product wraps: a full volume of 30000000 shows -43 |
| Player.SumOverflowExample | app/src/main/java/com/example/cookiem3u8player/PlayerActivity.kt:308 | `current + change` can wrap: 10 + Int.MAX_VALUE mutes the stream |

## Left out

- Network fetching (`fetchPlaylistFromUrl`: OkHttp, coroutines, the `Result` wrapper) is I/O, so it is not modelled.
- `cacheChannels` and the cache lookup in `loadChannelsFromUrl` are Gson and SharedPreferences persistence, so they are not modelled. Only the append rule is: `LoadChannels` takes the loaded list as a parameter.
- JSON text and org.json are not modelled. The document comes in already decoded: no array, or a list of elements, each either not an object or a map from key to string. `optString`'s rendering of non-string values is part of that decoding.
- ExoPlayer and Media3 objects (data-source factories, `MediaItem`, `DrmConfiguration`, media sources) are a foreign library. The model stops at the strings, maps and choices handed to them (`PlaybackRequest`, `PlayerRequest`).
- MainActivity.UserAgentFor: `Util.getUserAgent(this, "CookieM3U8Player")` is a foreign call. Its value is the parameter `systemAgent`.
- MainActivity.StartPlayback: `initializePlayer`, `stop`, `clearMediaItems`, the `try`/`catch` and the Toasts are player and UI calls, so they are left out. The `drmLicense` and `drmScheme` parameters are accepted and unused, as in the source.
- `lowercase(Locale.getDefault())` and `ignoreCase = true` are modelled as ASCII case folding. Locale-specific and non-ASCII case mappings are not modelled.
- `String.toByteArray()` is modelled as UTF-8 over Unicode scalar values. Unpaired surrogates cannot occur in a Dafny string.
- Player.AdjustVolume: the float `change` computation `(delta * max * 1.5f).toInt()` is floating point. The integer change is an input, and the AudioManager reads and writes become parameters and a result.
- Brightness, gestures and the playback-speed table are floating point and touch input, so they are not modelled.
- Player.PlayerControls.constructor: the initial `useController` and overlay visibility come from the layout file, which is not part of this model. They are taken as shown.
- Player.PlayerControls: button icons and `hideSystemUI` are recorded as flags (`fullscreenIconIsExit`, `lockIconIsClosed`, `systemBarsHidden`). The platform calls behind them are not modelled.
- Player.StartPlayback: the empty DRM branch is modelled as having no effect. The ExoPlayer listeners (playback ended, errors) are UI.
- Adapters (`ChannelAdapter.kt`, `PlaylistAdapter.kt`, `PlaylistEntriesAdapter.kt`, `HistoryAdapter.kt`) are view binding and image loading, so they are not modelled. The same goes for dialogs, Toasts, intents beyond their string extras, PiP API calls and the activity lifecycle.
- `HistoryItem` is not modelled: its only logic is a default read from the system clock.
- Kotlin `Int` indices and lengths in the parser are unbounded integers here. Only `adjustVolume`'s arithmetic is modelled at 32 bits, because only there can values reach the limit.
