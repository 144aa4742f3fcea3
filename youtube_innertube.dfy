/** The message shaping of the InnerTube YouTube connector
    (youtube-innertube-adapter.js): flattening a message's runs into text
    while collecting its custom emojis, classifying author badges, turning
    the author's name colour into `#rrggbb`, and the record `emitMessage`
    emits, with its message counter. The youtubei.js client, its events and
    its node type tests are not modelled: an item arrives as a value. */
module YouTubeInnertube {
  import opened JsText

  /** `image[i]` of an emoji or `custom_thumbnail[i]` of a badge. */
  datatype Thumbnail = Thumbnail(url: Option<string>)

  /** `run.emoji`: `emoji_id`, `image`, `shortcuts`, `is_custom`. */
  datatype EmojiData = EmojiData(
    emojiId: Option<string>,
    image: Option<seq<Thumbnail>>,
    shortcuts: Option<seq<string>>,
    isCustom: Option<bool>)

  /** A text run (`emoji` absent) or an emoji run. */
  datatype Run = Run(text: Option<string>, emoji: Option<EmojiData>)

  /** An entry of the `emojis` array. */
  datatype EmojiEntry = EmojiEntry(id: string, url: string, text: string, isCustom: bool)

  /** `emojiData.image[0].url` when there is an image, otherwise `null`. */
  function EmojiUrl(e: EmojiData): Option<string> {
    if e.image.Some? && |e.image.value| > 0 then e.image.value[0].url else None
  }

  /** `emojiData.shortcuts?.[0]` */
  function FirstShortcut(e: EmojiData): Option<string> {
    if e.shortcuts.Some? && |e.shortcuts.value| > 0 then Some(e.shortcuts.value[0]) else None
  }

  /** An emoji run whose emoji has an image address: the runs that add an
      entry to `emojis`. */
  predicate HasImage(r: Run) {
    r.emoji.Some? && Truthy(EmojiUrl(r.emoji.value))
  }

  /** The text an emoji run with an image stands for: the run's text, else
      the emoji's first shortcut, else `?`. */
  function EmojiText(r: Run): string
    requires r.emoji.Some?
  {
    OrElse(r.text, OrElse(FirstShortcut(r.emoji.value), "?"))
  }

  /** What one run adds to the message text. */
  function Contribution(r: Run): string {
    if r.emoji.None? then OrElse(r.text, "")
    else if HasImage(r) then EmojiText(r)
    else OrElse(r.text, "?")
  }

  /** The message text of a list of runs: the runs' contributions in order. */
  function RunsText(runs: seq<Run>): string {
    if runs == [] then "" else RunsText(runs[..|runs| - 1]) + Contribution(runs[|runs| - 1])
  }

  /** The entry an emoji run with an image adds when `count` entries are
      already in the array. */
  function EntryOf(r: Run, count: nat): EmojiEntry
    requires HasImage(r)
  {
    var e := r.emoji.value;
    EmojiEntry(OrElse(e.emojiId, "emoji_" + Decimal(count)), EmojiUrl(e).value, EmojiText(r), FlagOrFalse(e.isCustom))
  }

  /** The `emojis` array after the runs are processed. */
  function AddEmojis(emojis: seq<EmojiEntry>, runs: seq<Run>): seq<EmojiEntry> {
    if runs == [] then emojis
    else
      var prev := AddEmojis(emojis, runs[..|runs| - 1]);
      var r := runs[|runs| - 1];
      if HasImage(r) then prev + [EntryOf(r, |prev|)] else prev
  }

  /** The runs that have an emoji with an image, in order. */
  function ImageRuns(runs: seq<Run>): seq<Run> {
    if runs == [] then []
    else ImageRuns(runs[..|runs| - 1]) + (if HasImage(runs[|runs| - 1]) then [runs[|runs| - 1]] else [])
  }

  /** `processMessageRuns(runs, emojis)`: returns the message text and the
      `emojis` array it has appended to. */
  method ProcessMessageRuns(runs: seq<Run>, emojis: seq<EmojiEntry>) returns (processedMessage: string, emojis': seq<EmojiEntry>)
    ensures processedMessage == RunsText(runs)
    ensures emojis' == AddEmojis(emojis, runs)
  {
    processedMessage := "";
    emojis' := emojis;
    for i := 0 to |runs|
      invariant processedMessage == RunsText(runs[..i])
      invariant emojis' == AddEmojis(emojis, runs[..i])
    {
      assert runs[..i + 1][..i] == runs[..i];
      var run := runs[i];
      if run.emoji.Some? {
        var emojiData := run.emoji.value;
        var emojiUrl := if emojiData.image.Some? && |emojiData.image.value| > 0 then emojiData.image.value[0].url else None;
        if Truthy(emojiUrl) {
          emojis' := emojis' + [EmojiEntry(
            OrElse(emojiData.emojiId, "emoji_" + Decimal(|emojis'|)),
            emojiUrl.value,
            OrElse(run.text, OrElse(FirstShortcut(emojiData), "?")),
            FlagOrFalse(emojiData.isCustom))];
          processedMessage := processedMessage + OrElse(run.text, OrElse(FirstShortcut(emojiData), "?"));
        } else {
          processedMessage := processedMessage + OrElse(run.text, "?");
        }
      } else {
        processedMessage := processedMessage + OrElse(run.text, "");
      }
    }
    assert runs[..|runs|] == runs;
  }

  /** The message text of two lists of runs one after the other is the two
      texts one after the other: runs contribute in order. */
  lemma {:induction false} RunsTextAppend(a: seq<Run>, b: seq<Run>)
    ensures RunsText(a + b) == RunsText(a) + RunsText(b)
    decreases |b|
  {
    if b == [] {
      assert a + b == a;
    } else {
      assert (a + b)[..|a + b| - 1] == a + b[..|b| - 1];
      RunsTextAppend(a, b[..|b| - 1]);
    }
  }

  /** An emoji run always shows up in the text: it contributes at least one
      character, `?` when it has nothing else. */
  lemma {:induction false} EmojiRunsVisible(runs: seq<Run>)
    ensures |RunsText(runs)| >= |ImageRuns(runs)|
    ensures (forall i :: 0 <= i < |runs| ==> runs[i].emoji.None?) ==> |ImageRuns(runs)| == 0
  {
    if runs != [] {
      var init := runs[..|runs| - 1];
      EmojiRunsVisible(init);
      assert forall i :: 0 <= i < |init| ==> init[i] == runs[i];
    }
  }

  /** The array grows by exactly one entry per emoji run with an image, in
      run order; each entry is numbered by its position in the whole array;
      the entries that were there before are kept. */
  lemma {:induction false} EmojisPerImageRun(emojis: seq<EmojiEntry>, runs: seq<Run>)
    ensures var r := AddEmojis(emojis, runs);
      var f := ImageRuns(runs);
      && |r| == |emojis| + |f|
      && r[..|emojis|] == emojis
      && (forall j :: 0 <= j < |f| ==> HasImage(f[j]) && r[|emojis| + j] == EntryOf(f[j], |emojis| + j))
  {
    if runs != [] {
      EmojisPerImageRun(emojis, runs[..|runs| - 1]);
    }
  }

  /** An entry's text is exactly what its run contributed to the message,
      and a fallback id is `emoji_` followed by the entry's position. */
  lemma EntryMatchesText(r: Run, count: nat)
    requires HasImage(r)
    ensures EntryOf(r, count).text == Contribution(r)
    ensures !Truthy(r.emoji.value.emojiId) ==> EntryOf(r, count).id == "emoji_" + Decimal(count)
    ensures !EntryOf(r, count).isCustom <== r.emoji.value.isCustom != Some(true)
  {
  }

  /** Entries at different positions that both fall back to a generated id
      get different ids. */
  lemma FallbackIdsDistinct(r1: Run, r2: Run, n1: nat, n2: nat)
    requires HasImage(r1) && HasImage(r2) && n1 != n2
    requires !Truthy(r1.emoji.value.emojiId) && !Truthy(r2.emoji.value.emojiId)
    ensures EntryOf(r1, n1).id != EntryOf(r2, n2).id
  {
    var p := "emoji_";
    if EntryOf(r1, n1).id == EntryOf(r2, n2).id {
      assert (p + Decimal(n1))[|p|..] == Decimal(n1);
      assert (p + Decimal(n2))[|p|..] == Decimal(n2);
      DecimalRoundTrip(n1);
      DecimalRoundTrip(n2);
    }
  }

  /** `convertYouTubeColor(youtubeColor)`: `null` for an absent or zero
      colour, otherwise `#` and six lower-case hexadecimal digits of the low
      24 bits. For every integer, JavaScript's `& 0xFFFFFF` equals the
      non-negative remainder modulo 2^24, which is what `%` gives here. */
  function ConvertYouTubeColor(youtubeColor: Option<int>): (r: Option<string>)
    ensures r.None? <==> youtubeColor.None? || youtubeColor.value == 0
  {
    if youtubeColor.None? || youtubeColor.value == 0 then None
    else Some("#" + PadStart(Hex(youtubeColor.value % 0x100_0000), 6, '0'))
  }

  /** A converted colour is `#` and exactly six lower-case hexadecimal digits
      whose value is the colour's low 24 bits. */
  lemma ColorFormat(c: int)
    requires c != 0
    ensures var s := ConvertYouTubeColor(Some(c)).value;
      && |s| == 7 && s[0] == '#'
      && (forall i :: 1 <= i < 7 ==> IsLowerHex(s[i]))
      && HexValue(s[1..]) == c % 0x100_0000
  {
    var n := c % 0x100_0000;
    assert Pow16(6) == 0x100_0000;
    HexRoundTrip(n, 6);
    var h := Hex(n);
    var padded := PadStart(h, 6, '0');
    if |h| < 6 {
      HexValueLeadingZeros(6 - |h|, h);
    }
    var s := "#" + padded;
    assert s[1..] == padded;
  }

  /** Two colours convert to the same string exactly when their low 24 bits
      agree. */
  lemma ColorInjective(c1: int, c2: int)
    requires c1 != 0 && c2 != 0
    ensures ConvertYouTubeColor(Some(c1)) == ConvertYouTubeColor(Some(c2)) <==> c1 % 0x100_0000 == c2 % 0x100_0000
  {
    ColorFormat(c1);
    ColorFormat(c2);
  }

  /** An author badge: `icon_type`, `tooltip`, `custom_thumbnail`. */
  datatype Badge = Badge(iconType: Option<string>, tooltip: Option<string>, customThumbnail: Option<seq<Thumbnail>>)

  /** An entry of `badgeImages`. */
  datatype BadgeImage = BadgeImage(kind: string, url: string, tooltip: string)

  /** The type `icon_type` names, by case-insensitive substring, with
      moderator before verified before owner. */
  function IconTypeClass(iconType: Option<string>): Option<string> {
    if !Truthy(iconType) then None
    else
      var t := Lower(iconType.value);
      if Contains(t, "moderator") then Some("moderator")
      else if Contains(t, "verified") then Some("verified")
      else if Contains(t, "owner") then Some("owner")
      else None
  }

  /** The type the tooltip names, with member before moderator before
      verified before owner. */
  function TooltipClass(tooltip: Option<string>): Option<string> {
    if !Truthy(tooltip) then None
    else
      var t := Lower(tooltip.value);
      if Contains(t, "member") then Some("member")
      else if Contains(t, "moderator") then Some("moderator")
      else if Contains(t, "verified") then Some("verified")
      else if Contains(t, "owner") then Some("owner")
      else None
  }

  /** `badgeType`: from `icon_type` first, from the tooltip only when that
      gives nothing. */
  function ClassifyBadge(b: Badge): Option<string> {
    if IconTypeClass(b.iconType).Some? then IconTypeClass(b.iconType) else TooltipClass(b.tooltip)
  }

  /** `badgeUrl`: the first custom thumbnail's address, if it has one. */
  function BadgeUrl(b: Badge): Option<string> {
    if b.customThumbnail.Some? && |b.customThumbnail.value| > 0 && Truthy(b.customThumbnail.value[0].url)
    then b.customThumbnail.value[0].url
    else None
  }

  /** The `badges` array the loop builds: the classified types, in order. */
  function BadgeTypes(bs: seq<Badge>): seq<string> {
    if bs == [] then []
    else
      var t := ClassifyBadge(bs[|bs| - 1]);
      BadgeTypes(bs[..|bs| - 1]) + (if t.Some? then [t.value] else [])
  }

  /** The `badgeImages` array: one entry per classified badge with a
      thumbnail address, its tooltip defaulting to its type. */
  function BadgeImages(bs: seq<Badge>): seq<BadgeImage> {
    if bs == [] then []
    else
      var b := bs[|bs| - 1];
      var t := ClassifyBadge(b);
      BadgeImages(bs[..|bs| - 1])
        + (if t.Some? && BadgeUrl(b).Some? then [BadgeImage(t.value, BadgeUrl(b).value, OrElse(b.tooltip, t.value))] else [])
  }

  /** The badge loop of `emitMessage`. */
  method ClassifyBadges(bs: seq<Badge>) returns (badges: seq<string>, badgeImages: seq<BadgeImage>)
    ensures badges == BadgeTypes(bs) && badgeImages == BadgeImages(bs)
  {
    badges := [];
    badgeImages := [];
    for i := 0 to |bs|
      invariant badges == BadgeTypes(bs[..i]) && badgeImages == BadgeImages(bs[..i])
    {
      assert bs[..i + 1][..i] == bs[..i];
      var badge := bs[i];
      var badgeType: Option<string> := None;
      var badgeUrl: Option<string> := None;
      if Truthy(badge.iconType) {
        var iconType := Lower(badge.iconType.value);
        if Contains(iconType, "moderator") {
          badgeType := Some("moderator");
        } else if Contains(iconType, "verified") {
          badgeType := Some("verified");
        } else if Contains(iconType, "owner") {
          badgeType := Some("owner");
        }
      }
      if badgeType.None? && Truthy(badge.tooltip) {
        var tooltip := Lower(badge.tooltip.value);
        if Contains(tooltip, "member") {
          badgeType := Some("member");
        } else if Contains(tooltip, "moderator") {
          badgeType := Some("moderator");
        } else if Contains(tooltip, "verified") {
          badgeType := Some("verified");
        } else if Contains(tooltip, "owner") {
          badgeType := Some("owner");
        }
      }
      if badge.customThumbnail.Some? && |badge.customThumbnail.value| > 0 && Truthy(badge.customThumbnail.value[0].url) {
        badgeUrl := badge.customThumbnail.value[0].url;
      }
      if badgeType.Some? {
        badges := badges + [badgeType.value];
        if badgeUrl.Some? {
          badgeImages := badgeImages + [BadgeImage(badgeType.value, badgeUrl.value, OrElse(badge.tooltip, badgeType.value))];
        }
      }
    }
    assert bs[..|bs|] == bs;
  }

  predicate KnownBadgeType(t: string) {
    t == "moderator" || t == "verified" || t == "owner" || t == "member"
  }

  /** Only the four known types come out; `member` only from a tooltip; an
      `icon_type` that names a type makes the tooltip irrelevant; case does
      not matter. */
  lemma ClassifyPrecedence(b: Badge, otherTooltip: Option<string>)
    ensures ClassifyBadge(b).Some? ==> KnownBadgeType(ClassifyBadge(b).value)
    ensures ClassifyBadge(b) == Some("member") ==> IconTypeClass(b.iconType).None? && Truthy(b.tooltip) && Contains(Lower(b.tooltip.value), "member")
    ensures IconTypeClass(b.iconType).Some? ==> ClassifyBadge(b) == ClassifyBadge(b.(tooltip := otherTooltip))
    ensures Truthy(b.iconType) ==> ClassifyBadge(b) == ClassifyBadge(b.(iconType := Some(Lower(b.iconType.value))))
    ensures Truthy(b.tooltip) ==> ClassifyBadge(b) == ClassifyBadge(b.(tooltip := Some(Lower(b.tooltip.value))))
  {
    if Truthy(b.iconType) {
      LowerIdempotent(b.iconType.value);
    }
    if Truthy(b.tooltip) {
      LowerIdempotent(b.tooltip.value);
    }
  }

  lemma LowerIdempotent(s: string)
    ensures Lower(Lower(s)) == Lower(s)
    ensures Lower(s) != "" <==> s != ""
  {
  }

  /** Badges keep their input order, unrecognised ones are dropped, and at
      most one image is recorded per recorded badge. */
  lemma {:induction false} BadgesShape(bs: seq<Badge>)
    ensures |BadgeImages(bs)| <= |BadgeTypes(bs)| <= |bs|
    ensures forall t :: t in BadgeTypes(bs) ==> KnownBadgeType(t)
    ensures (forall i :: 0 <= i < |bs| ==> ClassifyBadge(bs[i]).None?) ==> BadgeTypes(bs) == []
  {
    if bs != [] {
      var init := bs[..|bs| - 1];
      BadgesShape(init);
      assert forall i :: 0 <= i < |init| ==> init[i] == bs[i];
      ClassifyPrecedence(bs[|bs| - 1], None);
    }
  }

  /** `author.name`: its `toString()` and its runs' `text_color`s. */
  datatype AuthorName = AuthorName(text: string, runColors: Option<seq<Option<int>>>)

  datatype Author = Author(name: Option<AuthorName>, badges: Option<seq<Badge>>)

  /** `item.message`: its runs, when it has them, and its `toString()`. */
  datatype ItemMessage = ItemMessage(runs: Option<seq<Run>>, text: string)

  /** A chat item: text message, Super Chat, Super Sticker or membership. */
  datatype ChatItem = ChatItem(
    author: Option<Author>,
    message: Option<ItemMessage>,
    timestamp: Option<int>,
    purchaseAmount: Option<string>)

  /** The `messageData` record `emitMessage` emits. */
  datatype MessageData = MessageData(
    username: string,
    message: string,
    platform: string,
    badges: seq<string>,
    badgeImages: seq<BadgeImage>,
    color: Option<string>,
    emojis: seq<EmojiEntry>,
    timestamp: int,
    isSuperChat: bool,
    isSticker: bool,
    superChatAmount: Option<string>)

  function Username(a: Author): string {
    if a.name.Some? then OrElse(Some(a.name.value.text), "Unknown") else "Unknown"
  }

  function ItemText(item: ChatItem, isSticker: bool): string {
    if item.message.Some? then
      if item.message.value.runs.Some? then RunsText(item.message.value.runs.value) else item.message.value.text
    else if isSticker then "[Sticker]"
    else ""
  }

  function ItemEmojis(item: ChatItem): seq<EmojiEntry> {
    if item.message.Some? && item.message.value.runs.Some? then AddEmojis([], item.message.value.runs.value) else []
  }

  function AuthorBadges(a: Author): seq<Badge> {
    if a.badges.Some? then a.badges.value else []
  }

  /** The colour of the name's first run, when it has a non-zero one. */
  function AuthorColor(a: Author): Option<string> {
    if a.name.Some? && a.name.value.runColors.Some? && |a.name.value.runColors.value| > 0
       && a.name.value.runColors.value[0].Some? && a.name.value.runColors.value[0].value != 0
    then ConvertYouTubeColor(a.name.value.runColors.value[0])
    else None
  }

  /** The record emitted for an item with an author. */
  function MessageDataOf(item: ChatItem, isSuperChat: bool, isSticker: bool, now: int): MessageData
    requires item.author.Some?
  {
    var a := item.author.value;
    MessageData(
      Username(a),
      ItemText(item, isSticker),
      "youtube",
      BadgeTypes(AuthorBadges(a)),
      BadgeImages(AuthorBadges(a)),
      AuthorColor(a),
      ItemEmojis(item),
      if item.timestamp.Some? && item.timestamp.value != 0 then item.timestamp.value else now,
      isSuperChat,
      isSticker,
      if isSuperChat && Truthy(item.purchaseAmount) then item.purchaseAmount else None)
  }

  /** The fields of an emitted record, as the adapter promises them. */
  lemma EmittedFields(item: ChatItem, isSuperChat: bool, isSticker: bool, now: int)
    requires item.author.Some?
    ensures var d := MessageDataOf(item, isSuperChat, isSticker, now);
      && d.platform == "youtube"
      && (d.username == "Unknown" <== item.author.value.name.None?)
      && d.username != ""
      && (item.message.None? && isSticker ==> d.message == "[Sticker]")
      && (d.superChatAmount.Some? <==> isSuperChat && Truthy(item.purchaseAmount))
      && |d.badgeImages| <= |d.badges|
      && (forall t :: t in d.badges ==> KnownBadgeType(t))
      && (d.color.Some? ==> |d.color.value| == 7 && d.color.value[0] == '#')
      && |d.emojis| <= |d.message|
  {
    var a := item.author.value;
    BadgesShape(AuthorBadges(a));
    if AuthorColor(a).Some? {
      ColorFormat(a.name.value.runColors.value[0].value);
    }
    if item.message.Some? && item.message.value.runs.Some? {
      var runs := item.message.value.runs.value;
      EmojisPerImageRun([], runs);
      EmojiRunsVisible(runs);
    }
  }

  /** The message text and emojis of `emitMessage`: from the runs when
      the message has them, else its plain text; `[Sticker]` for a sticker
      without a message. */
  method MessageText(item: ChatItem, isSticker: bool) returns (message: string, emojis: seq<EmojiEntry>)
    ensures message == ItemText(item, isSticker) && emojis == ItemEmojis(item)
  {
    message := "";
    emojis := [];
    if item.message.Some? {
      if item.message.value.runs.Some? {
        message, emojis := ProcessMessageRuns(item.message.value.runs.value, emojis);
      } else {
        message := item.message.value.text;
      }
    } else if isSticker {
      message := "[Sticker]";
    }
  }

  /** The badge lists of `emitMessage`: empty when the author has no
      badges. */
  method AuthorBadgeLists(author: Author) returns (badges: seq<string>, badgeImages: seq<BadgeImage>)
    ensures badges == BadgeTypes(AuthorBadges(author)) && badgeImages == BadgeImages(AuthorBadges(author))
  {
    badges := [];
    badgeImages := [];
    if author.badges.Some? && |author.badges.value| > 0 {
      badges, badgeImages := ClassifyBadges(author.badges.value);
    }
  }

  /** The colour of `emitMessage`: converted from the name's first run when
      it has a non-zero `text_color`, else `null`. */
  method NameColor(author: Author) returns (color: Option<string>)
    ensures color == AuthorColor(author)
  {
    color := None;
    if author.name.Some? && author.name.value.runColors.Some? && |author.name.value.runColors.value| > 0
       && author.name.value.runColors.value[0].Some? && author.name.value.runColors.value[0].value != 0 {
      color := ConvertYouTubeColor(author.name.value.runColors.value[0]);
    }
  }

  /** The adapter's state that `emitMessage` touches: the counter and the
      records emitted so far (the `message` events). */
  class InnertubeAdapter {
    var messageCount: nat
    var emitted: seq<MessageData>

    /** `messageCount` counts the messages emitted. */
    ghost predicate Valid()
      reads this
    {
      messageCount == |emitted|
    }

    constructor ()
      ensures Valid() && messageCount == 0 && emitted == []
    {
      messageCount := 0;
      emitted := [];
    }

    /** `emitMessage(item, isSuperChat, isSticker)`, with `Date.now()` as
        `now`: an item without an author is ignored; otherwise its record is
        emitted and the counter goes up by one. */
    method EmitMessage(item: ChatItem, isSuperChat: bool, isSticker: bool, now: int)
      requires Valid()
      modifies this
      ensures Valid()
      ensures item.author.None? ==> messageCount == old(messageCount) && emitted == old(emitted)
      ensures item.author.Some? ==> messageCount == old(messageCount) + 1
      ensures item.author.Some? ==> emitted == old(emitted) + [MessageDataOf(item, isSuperChat, isSticker, now)]
    {
      if item.author.None? {
        return;
      }
      var author := item.author.value;
      var username := if author.name.Some? then OrElse(Some(author.name.value.text), "Unknown") else "Unknown";
      var message, emojis := MessageText(item, isSticker);
      var badges, badgeImages := AuthorBadgeLists(author);
      var color := NameColor(author);
      var messageData := MessageData(
        username, message, "youtube", badges, badgeImages, color, emojis,
        if item.timestamp.Some? && item.timestamp.value != 0 then item.timestamp.value else now,
        isSuperChat, isSticker,
        if isSuperChat && Truthy(item.purchaseAmount) then item.purchaseAmount else None);
      messageCount := messageCount + 1;
      emitted := emitted + [messageData];
    }
  }
}
