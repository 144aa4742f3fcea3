# chat-overlay-multistream, modelled in Dafny

A model of the message-handling core of a multistream chat overlay. The
overlay reads chat from Twitch, Kick and YouTube and turns every message into
one unified record. It pushes those records to browser overlays over a
WebSocket and keeps a short history for overlays that connect later.

The model covers the following:

- **Emote parsing** in `server.js`:
  - the Twitch parser, driven by the emote-position tag
    (`TwitchEmotes`);
  - the Kick parser, driven by the `[emote:<id>:<name>]` markup
    (`KickEmotes`, with the markup grammar in `EmoteMarker` and the message
    parts in `ChatParts`).
- **The unified record** and the random user colour
  (`UnifiedMessage`).
- **The WebSocket hub** (`BroadcastHub`): the client set, the bounded history,
  `broadcast`, and the connection and close handlers.
- **The YouTube InnerTube connector** (`YouTubeInnertube`): message runs to text
  and emojis, colour conversion, badge classification, and the record it emits
  with its message counter.
- **The YouTube Data API connector** (`YouTubeDataApi`):
  - duplicate suppression with eviction;
  - badge building and message shaping;
  - handling of a poll response (page token, polling-interval clamp, chat
    ended);
  - `stop`.
- **The Kick browser-interception connector** (`KickPuppeteer`): the frame
  filter and the handling of a parsed Pusher chat event.

The JavaScript helpers the model relies on live in `JsText`:

- truthiness of optional strings;
- `substring` with its clamping (offsets count characters; the UTF-16 reading is in `Utf16Offsets`);
- `indexOf`, and `replace` of the first occurrence with the `$` patterns of its replacement string;
- `toLowerCase` on ASCII;
- decimal and hexadecimal rendering;
- `padStart`.

Objects whose fields the source updates in place are classes:

- `Hub` and `Socket`;
- `InnertubeAdapter`;
- `YouTubeAdapter`;
- `PuppeteerAdapter`.

The loops of the source are methods, each proved equal to a specification
function. The lemmas then state the properties of those functions: emote
text reads back to the message, emote parts come in order, the history stays
a window of what was published, and the processed-id set stays bounded and
free of duplicates.

Inputs the source takes from the environment are parameters of the model:

- the clock;
- `Math.random`;
- the random id suffix;
- `toISOString`;
- the result of `JSON.parse`.

## Model

| member | source | states |
|---|---|---|
| TwitchEmotes.FlattenEntries | server.js:91-103 | the loop over the tag's entries yields one position per range, in tag order, each named by the substring it covers |
| TwitchEmotes.PushEntry | server.js:94-102 | the inner loop appends one position per range of the entry, in order, after the positions already collected |
| TwitchEmotes.SortByStartCorrect | server.js:106 | sorting by start leaves the positions ordered by start and a permutation of the input |
| TwitchEmotes.InsertByStartShape | server.js:106 | insertion splices the new position into the sequence; in a sorted sequence, every position before it starts no later and every position after it starts later, so equal starts keep their order (a stable sort) |
| TwitchEmotes.PlaceEmote | server.js:112-131 | one loop step appends the non-empty text before the emote, then the emote part, and moves the cursor past the emote's end |
| TwitchEmotes.WalkSorted | server.js:108-141 | the emote loop plus the trailing text produces exactly the walk over the sorted positions |
| TwitchEmotes.ParseTwitchEmotes | server.js:86-142 | the parser returns the single text part without a tag, otherwise the walk over the flattened and sorted positions |
| TwitchEmotes.NoTagIsPlainText | server.js:87-89 | an absent or empty tag gives the whole message as one text part |
| TwitchEmotes.WalkEmotes | server.js:121-128 | the walk emits exactly one emote part per position, in position order |
| TwitchEmotes.WalkNoEmptyText | server.js:114-119 | the walk never emits an empty text part |
| TwitchEmotes.WalkReconstructs | server.js:109-139 | with well-placed positions, the parts read back with emote names give the text from the cursor onward |
| TwitchEmotes.SortByStartDisjoint | server.js:106 | sorting keeps the ranges pairwise disjoint when they were |
| TwitchEmotes.FlattenNames | server.js:100 | each flattened position's name is the substring its range covers |
| TwitchEmotes.SortedProperIsWellPlaced | server.js:106-131 | ranges that lie in the text and do not overlap, once sorted, are well placed for the walk |
| TwitchEmotes.TwitchReconstructs | server.js:86-142 | when the tag's ranges lie in the text and do not overlap, the parts read back exactly to the message |
| TwitchEmotes.TwitchEmotesInOrder | server.js:106-131 | with a non-empty tag, the emote parts are the sorted positions in order, the sort is a permutation, and no text part is empty |
| JsText.TemplateFilled | server.js:127 | `replace('{id}', id)` on a URL template puts the expanded id where the placeholder stood and leaves the rest; an id without `$` lands verbatim |
| JsText.ExpandPlain | server.js:179 | a replacement string without `$` is inserted exactly as it is |
| JsText.ContainsIffOccurs | kick-adapters/puppeteer-adapter.js:77 | the recursive search that models `includes` is true exactly when the substring occurs at some offset of the text |
| ChatParts.AppendRest | server.js:133-139 | the trailing step appends the rest of the text after the cursor as one part, or nothing when no text is left |
| Utf16Offsets.EncodeLength | server.js:134 | `text.length` counts UTF-16 code units: never fewer than characters, and as many when every character lies in the Basic Multilingual Plane |
| Utf16Offsets.SurrogateSplit | server.js:100 | for `"😀ab"` and range 1-1, `substring` as written yields the emoji's low surrogate, while the character range names `a` |
| EmoteMarker.MatchAtSound | server.js:159 | a match of the expression at an offset is a `[emote:<digits>:<name without ]>]` marker there and covers exactly its markup |
| EmoteMarker.MatchAtComplete | server.js:159 | wherever a marker stands, the expression matches it with exactly that id and name |
| EmoteMarker.FindMarker | server.js:162 | the global search finds the leftmost match at or after the offset, or reports that none is left |
| EmoteMarker.MarkersWellFormed | server.js:159-162 | every match of the global search is well formed and lies after the starting offset |
| EmoteMarker.MarkersOrdered | server.js:162-183 | successive matches do not overlap and come left to right |
| EmoteMarker.MarkerRefsOfMarkers | kick-adapters/puppeteer-adapter.js:124-132 | the id/name records are one per match, in match order, with the match's captures |
| KickEmotes.PlaceEmote | server.js:162-183 | one loop step appends the non-empty text before the match, then the emote part, and moves the cursor to the match's end |
| KickEmotes.ScanMarkers | server.js:155-193 | the scanning loop plus the trailing text produces exactly the walk over the matches |
| KickEmotes.ParseKickEmotes | server.js:150-194 | the parser returns the single text part for an absent or empty list, otherwise the walk over the matches |
| KickEmotes.DigitIdUrl | server.js:179 | a digit emote id is inserted into the Kick URL template verbatim |
| KickEmotes.GateOnly | server.js:150-153 | the emote list only switches the scan on: its contents never change the parts |
| KickEmotes.WalkReconstructs | server.js:162-191 | the parts read back with emote markup give the text from the cursor onward |
| KickEmotes.KickReconstructs | server.js:150-194 | for every message and list, the parts read back with emote markup give the message exactly |
| KickEmotes.MarkupOfMatch | server.js:172-180 | an emote part's markup is exactly the text its match covered |
| KickEmotes.WalkEmotes | server.js:171-180 | one emote part per match, in match order |
| KickEmotes.WalkNoEmptyText | server.js:164-169 | the scan never emits an empty text part |
| KickEmotes.WalkShape | server.js:162-191 | no two text parts are adjacent, and k matches give at most 2k + 1 parts |
| KickEmotes.KickEmotesFromMarkers | server.js:150-194 | with a non-empty list: emotes are the matches in order, each with a digit id and a name without `]`; no empty or adjacent text parts; at most 2k + 1 parts |
| UnifiedMessage.GetRandomColor | server.js:222-224 | the colour drawn is always one of the twelve palette colours |
| UnifiedMessage.EveryColorReachable | server.js:34-38 | every palette colour is drawn for some value of the random draw |
| UnifiedMessage.CreateUnifiedMessage | server.js:196-220 | the record keeps platform, name, raw text and timestamp; the id is platform, time and suffix joined by dashes; the colour is the given one when truthy, else a palette colour; the parts are the platform dispatch `ParseParts`; given badges pass through and absent ones default to empty; each flag holds exactly when the flag given is `true` |
| UnifiedMessage.PartsReconstruct | server.js:198-205 | Kick text always reads back from its parts; Twitch text reads back when its ranges are proper; other platforms, and Twitch or Kick without emote data, give one text part |
| UnifiedMessage.EmotesMatchPlatform | server.js:196-205 | every emote part carries the message's platform and that platform's CDN address for its id |
| BroadcastHub.WindowShape | server.js:18 | the kept history is the last `MAX_HISTORY` messages published, or all of them while there are fewer |
| BroadcastHub.PushWindow | server.js:229-234 | pushing a message then shifting once keeps the history equal to the window of everything published |
| BroadcastHub.PushBoundedShape | server.js:229-234 | the history never exceeds 100 entries and the newest message is its last entry |
| BroadcastHub.Hub.constructor | server.js:51-54 | the hub starts with no clients and an empty history |
| BroadcastHub.Hub.Connect | server.js:56-68 | the socket joins the clients and, when open, is sent the whole history in order; the history is unchanged |
| BroadcastHub.Hub.Close | server.js:70-73 | the socket leaves the clients; the history is unchanged |
| BroadcastHub.Hub.Broadcast | server.js:227-243 | the message enters the bounded history, the window invariant holds, and every open client receives it exactly once while closed clients receive nothing |
| BroadcastHub.Hub.Deliver | server.js:236-242 | every client in the set is sent the message when open and nothing when closed |
| BroadcastHub.ReplayAfterBroadcasts | server.js:56-68 | a socket that connects after any run of broadcasts is sent exactly the last 100 of them, oldest first, if it is open |
| YouTubeInnertube.ProcessMessageRuns | youtube-innertube-adapter.js:270-303 | the loop returns the text of the runs and appends the emoji entries to the array, as the run specifications say |
| YouTubeInnertube.RunsTextAppend | youtube-innertube-adapter.js:273-300 | the text of concatenated runs is the concatenation of their texts |
| YouTubeInnertube.EmojiRunsVisible | youtube-innertube-adapter.js:281-299 | each emoji with an image adds at least one character of text; runs without emoji add no entry |
| YouTubeInnertube.EmojisPerImageRun | youtube-innertube-adapter.js:275-294 | exactly one entry is appended per emoji run with an image, in run order, numbered by its place in the whole array; earlier entries are kept |
| YouTubeInnertube.EntryMatchesText | youtube-innertube-adapter.js:283-291 | an entry's text is what its run contributed to the message, and a missing id falls back to `emoji_` and the entry's position |
| YouTubeInnertube.FallbackIdsDistinct | youtube-innertube-adapter.js:284 | generated fallback ids at different positions differ |
| YouTubeInnertube.ConvertYouTubeColor | youtube-innertube-adapter.js:310-316 | no colour exactly when the input is absent or zero |
| YouTubeInnertube.ColorFormat | youtube-innertube-adapter.js:313-315 | a converted colour is `#` and six lower-case hex digits whose value is the low 24 bits of the input |
| YouTubeInnertube.ColorInjective | youtube-innertube-adapter.js:314 | two inputs give the same colour exactly when their low 24 bits agree |
| YouTubeInnertube.ClassifyBadges | youtube-innertube-adapter.js:177-232 | the badge loop yields the badge types and the badge images the per-badge classification defines |
| YouTubeInnertube.ClassifyPrecedence | youtube-innertube-adapter.js:185-209 | a classified type is one of owner, moderator, verified or member; `member` comes only from the tooltip when the icon type says nothing; an icon-type match overrides the tooltip; matching ignores case |
| YouTubeInnertube.LowerIdempotent | youtube-innertube-adapter.js:187 | lowering twice is lowering once, and keeps emptiness |
| YouTubeInnertube.BadgesShape | youtube-innertube-adapter.js:218-230 | there are no more images than types and no more types than badges; every type is known; unclassified badges are dropped |
| YouTubeInnertube.EmittedFields | youtube-innertube-adapter.js:152-254 | the emitted record is for `youtube`, has a non-empty name (`Unknown` by default), `[Sticker]` for a bare sticker, an amount only for a paid Super Chat, known badge types, a well-formed colour, and no more emojis than characters |
| YouTubeInnertube.MessageText | youtube-innertube-adapter.js:159-171 | the message and emojis come from the runs when present, else from the plain text, and `[Sticker]` for a sticker without a message |
| YouTubeInnertube.AuthorBadgeLists | youtube-innertube-adapter.js:174-232 | the author's badges, or none, go through the badge classification |
| YouTubeInnertube.NameColor | youtube-innertube-adapter.js:235-238 | the colour is the converted colour of the first name run, when it has one |
| YouTubeInnertube.InnertubeAdapter.constructor | youtube-innertube-adapter.js:15 | the adapter starts with a zero count and nothing emitted |
| YouTubeInnertube.InnertubeAdapter.EmitMessage | youtube-innertube-adapter.js:152-262 | an item without an author changes nothing; otherwise the count rises by one and the record is emitted, so the count always equals the number of records emitted |
| YouTubeDataApi.Remove | youtube-adapter.js:109 | deleting an id removes it and keeps every other id |
| YouTubeDataApi.RemoveOldest | youtube-adapter.js:108-109 | in a set without duplicates, deleting the oldest id leaves the rest in order |
| YouTubeDataApi.AdmitBounded | youtube-adapter.js:100-112 | recording an id keeps the set free of duplicates and at most 1000 large; when full, the 500 oldest go first; the new id is the newest entry |
| YouTubeDataApi.BuildBadges | youtube-adapter.js:124-128 | the badge list is built from the author's four flags |
| YouTubeDataApi.BadgesExact | youtube-adapter.js:124-128 | there is exactly one badge per set flag, with its label, in the order owner, moderator, member, verified |
| YouTubeDataApi.ShapeFields | youtube-adapter.js:114-141 | only text-message events give a record; it copies the id and flags; its text is the message text, else the display message, else empty; it has at most four badges |
| YouTubeDataApi.YouTubeAdapter.constructor | youtube-adapter.js:11-17 | no chat id, token or timer, not running, a 3000 ms interval and no processed ids |
| YouTubeDataApi.YouTubeAdapter.ProcessMessage | youtube-adapter.js:100-142 | a seen id gives nothing; otherwise the id is recorded (evicting the 500 oldest when full) and the item is shaped; nothing else changes |
| YouTubeDataApi.YouTubeAdapter.Stop | youtube-adapter.js:197-207 | the adapter stops, its timer is cleared and the processed ids are forgotten; chat id, token and interval are kept |
| YouTubeDataApi.YouTubeAdapter.HandleResponse | youtube-adapter.js:59-95 | no chat id gives nothing; a chat-ended error stops the adapter and keeps the chat id, page token and interval; any other error gives nothing and changes nothing; success stores the token, raises a given interval to at least 2000 ms and returns the items |
| KickPuppeteer.NormalizeBadges | kick-adapters/puppeteer-adapter.js:107-113 | one badge per raw badge, in order, with the text defaulting to the type and the count to 0 |
| KickPuppeteer.ExtractEmotes | kick-adapters/puppeteer-adapter.js:123-132 | the regex loop collects one id/name record per match of the message, left to right |
| KickPuppeteer.PushMatch | kick-adapters/puppeteer-adapter.js:127-131 | one loop step appends the match's id and name and resumes the search at the match's end |
| KickPuppeteer.RecordBadgesAndFlags | kick-adapters/puppeteer-adapter.js:103-121 | the record's badges mirror the raw badges; each role flag holds exactly when some badge has that type |
| KickPuppeteer.RecordText | kick-adapters/puppeteer-adapter.js:90-100 | unparsable payloads and non-chat events give nothing; the name is the sender's, falling back to the top-level name, then `Unknown`; the text falls back to the message field; an empty text gives nothing; the colour is the identity colour when truthy, else null |
| KickPuppeteer.EmotesAgreeWithServer | server.js:353-361 | the emotes the connector extracts are exactly the emotes the server's Kick parser finds in the same text: as many, with the same ids and names, in order |
| KickPuppeteer.PuppeteerAdapter.constructor | kick-adapters/puppeteer-adapter.js:13 | the connector starts not running, with nothing handed on |
| KickPuppeteer.PuppeteerAdapter.HandlePusherMessage | kick-adapters/puppeteer-adapter.js:88-158 | a chat event with a non-empty text hands exactly its record on; anything else hands nothing on |
| KickPuppeteer.PuppeteerAdapter.OnFrame | kick-adapters/puppeteer-adapter.js:70-79 | frames are ignored while not running or when the payload names neither `pusher:` nor `ChatMessageEvent`; otherwise the frame is handled |

## Left out

- Network, WebSocket transport, JSON serialisation, logging and timers are not modelled. A WebSocket client is its open flag and the list of messages it has been sent.
- `Date.now`, `new Date().toISOString()`, `Math.random` and the random id suffix are parameters. The suffix is taken as given rather than derived from `toString(36)`.
- `toLowerCase` is modelled for ASCII letters only; Unicode case mapping is not modelled.
- Twitch emote ranges are taken as already-parsed pairs of natural numbers. A range string that does not split into two numbers (which gives `NaN` in the source) is not modelled.
- TwitchEmotes.TwitchReconstructs: stated only for ranges that lie inside the text and do not overlap. The source has no check for overlapping ranges and does not skip them; the model follows the code, and with overlapping ranges the parts repeat text.
- TwitchEmotes.FlattenEntries: names are cut from the text by character (code point) offsets; JavaScript's `substring` counts UTF-16 code units, so a character outside the Basic Multilingual Plane before a range shifts the name in the source (see Findings).
- TwitchEmotes.PlaceEmote: the text before an emote and the cursor count characters, where the source counts UTF-16 code units.
- TwitchEmotes.WalkSorted: the trailing-text test and slice use the character count, where the source's `text.length` counts UTF-16 code units.
- TwitchEmotes.ParseTwitchEmotes: on text holding a character outside the Basic Multilingual Plane, the parts differ from the source's as the Findings row shows; the model gives the code-point reading throughout, and `ProperRanges` bounds ranges by the character count.
- The `tmi.js` client wiring, the mock Kick client, the Kick WebSocket adapter stub and the platform start-up code in `server.js` are not part of this model.
- `broadcast` sends to clients one after another with no failure handling. Dropping a client whose send fails is not modelled; neither is the order in which the set yields its clients.
- The `youtubei.js` calls that start the InnerTube connector and dispatch chat actions are not part of this model. Neither is the Data API connector's `getLiveChatId`, `start` or poll loop: `HandleResponse` takes the already-fetched response body, and a rejected `fetch` (which also gives an empty list) is not modelled.
- The Kick connector's browser launch and the `JSON.parse` of the frame and of its `data` field are not modelled; their result is an input (`None` when parsing fails). `onMessage` is taken to be set.
- YouTubeInnertube.ProcessMessageRuns: the emoji array is returned as a new value rather than mutated in place through the caller's reference.
- YouTubeDataApi.YouTubeAdapter.ProcessMessage: the JavaScript `Set` of processed ids is a sequence in insertion order with no duplicates, which is the order `Array.from` yields.
- YouTubeInnertube.ClassifyBadges: a badge whose icon type and tooltip match no known type is dropped, as the code does, whereas the Kick connector keeps every badge.
- Super Chat and sticker detection in the InnerTube connector arrives as the `isSuperChat` and `isSticker` parameters of `emitMessage`.

## Findings

| source | as written | input that shows it | evidently intended | confidence | as-written member | corrected member |
|---|---|---|---|---|---|---|
| server.js:100 | `text.substring(start, end + 1)` and the other slices of `parseTwitchEmotes` count UTF-16 code units, while the tag's offsets count characters | text `"😀ab"`, tag `{"1": ["1-1"]}`: the name is the lone low surrogate `\uDE00`, the text before is a lone high surrogate | slice by characters, so the range 1-1 names `a` and the parts read back as the message | medium; not executed | Utf16Offsets.SurrogateSplit | TwitchEmotes.TwitchReconstructs |
