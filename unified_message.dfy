/** `createUnifiedMessage` and `getRandomColor` (server.js): every chat
    message, whatever its platform, is turned into one record with its text
    split into parts, a colour, badges and role flags. The clock, the random
    id suffix and the random draw for the colour are inputs here. */
module UnifiedMessage {
  import opened JsText
  import opened ChatParts
  import opened EmoteMarker
  import TwitchEmotes
  import KickEmotes

  /** `USER_COLORS`: the palette a user without a colour is given one from. */
  const UserColors: seq<string> := [
    "#FF6B6B", "#4ECDC4", "#45B7D1", "#96CEB4",
    "#FFEAA7", "#DDA0DD", "#98D8C8", "#F7DC6F",
    "#BB8FCE", "#85C1E9", "#F8B500", "#00CED1"
  ]

  /** `USER_COLORS[Math.floor(Math.random() * USER_COLORS.length)]`, with
      the draw of `Math.random()` (in [0, 1)) as a parameter. */
  function GetRandomColor(draw: real): (c: string)
    requires 0.0 <= draw < 1.0
    ensures c in UserColors
  {
    var i := (draw * |UserColors| as real).Floor;
    assert 0 <= i < |UserColors|;
    UserColors[i]
  }

  /** Every colour of the palette can be drawn. */
  lemma EveryColorReachable(i: nat)
    requires i < |UserColors|
    ensures GetRandomColor(i as real / |UserColors| as real) == UserColors[i]
  {
    var draw := i as real / |UserColors| as real;
    assert draw * |UserColors| as real == i as real;
  }

  /** The optional fields the platform handlers pass in `extra`. */
  datatype Extra<B> = Extra(
    color: Option<string>,
    badges: Option<seq<B>>,
    emotes: Option<seq<TwitchEmotes.EmoteEntry>>,
    kickEmotes: Option<seq<EmoteRef>>,
    isSubscriber: Option<bool>,
    isModerator: Option<bool>,
    isVIP: Option<bool>)

  /** The record sent to the overlay. */
  datatype Message<B> = Message(
    id: string,
    platform: string,
    username: string,
    raw: string,
    parts: seq<Part>,
    timestamp: string,
    color: string,
    badges: seq<B>,
    isSubscriber: bool,
    isModerator: bool,
    isVIP: bool)

  /** The parts of the message: the Twitch parser for `twitch` with an
      emote tag, the Kick parser for `kick` with an emote list, otherwise
      the whole text as one part. */
  function ParseParts<B>(platform: string, message: string, extra: Extra<B>): seq<Part> {
    if platform == "twitch" && extra.emotes.Some? then TwitchEmotes.TwitchParts(message, extra.emotes)
    else if platform == "kick" && extra.kickEmotes.Some? then KickEmotes.KickParts(message, extra.kickEmotes)
    else [TextPart(message)]
  }

  /** `createUnifiedMessage(platform, username, message, extra)`, with
      `Date.now()`, the random id suffix, `new Date().toISOString()` and the
      colour draw as parameters. */
  function CreateUnifiedMessage<B>(platform: string, username: string, message: string, extra: Extra<B>,
                                   now: nat, suffix: string, timestamp: string, draw: real): (m: Message<B>)
    requires 0.0 <= draw < 1.0
    ensures m.platform == platform && m.username == username && m.raw == message && m.timestamp == timestamp
    ensures m.id == platform + "-" + Decimal(now) + "-" + suffix
    ensures Truthy(extra.color) ==> m.color == extra.color.value
    ensures !Truthy(extra.color) ==> m.color in UserColors
    ensures m.parts == ParseParts(platform, message, extra)
    ensures extra.badges.Some? ==> m.badges == extra.badges.value
    ensures extra.badges.None? ==> m.badges == []
    ensures m.isSubscriber <==> extra.isSubscriber == Some(true)
    ensures m.isModerator <==> extra.isModerator == Some(true)
    ensures m.isVIP <==> extra.isVIP == Some(true)
  {
    Message(
      platform + "-" + Decimal(now) + "-" + suffix,
      platform,
      username,
      message,
      ParseParts(platform, message, extra),
      timestamp,
      if Truthy(extra.color) then extra.color.value else GetRandomColor(draw),
      if extra.badges.Some? then extra.badges.value else [],
      FlagOrFalse(extra.isSubscriber),
      FlagOrFalse(extra.isModerator),
      FlagOrFalse(extra.isVIP))
  }

  /** The message text is never lost: a Kick message reads back exactly with
      its emotes written as markers; a Twitch message whose emote ranges lie
      in the text and do not overlap reads back exactly with emote names; a
      message of any other platform, or without emote data, is one part. */
  lemma PartsReconstruct<B>(platform: string, message: string, extra: Extra<B>)
    ensures platform == "kick" ==> RenderMarkup(ParseParts(platform, message, extra)) == message
    ensures platform == "twitch" && (extra.emotes.Some? ==> TwitchEmotes.ProperRanges(message, TwitchEmotes.Flatten(message, extra.emotes.value)))
      ==> RenderNames(ParseParts(platform, message, extra)) == message
    ensures (platform != "twitch" && platform != "kick") ==> ParseParts(platform, message, extra) == [TextPart(message)]
    ensures (platform == "twitch" && extra.emotes.None?) || (platform == "kick" && extra.kickEmotes.None?) ==>
      ParseParts(platform, message, extra) == [TextPart(message)]
  {
    if platform == "kick" {
      if extra.kickEmotes.Some? {
        KickEmotes.KickReconstructs(message, extra.kickEmotes);
      } else {
        RenderMarkupSingle(TextPart(message));
      }
    } else if platform == "twitch" {
      if extra.emotes.None? {
        RenderNamesSingle(TextPart(message));
      } else if TwitchEmotes.ProperRanges(message, TwitchEmotes.Flatten(message, extra.emotes.value)) {
        TwitchEmotes.TwitchReconstructs(message, extra.emotes);
      }
    }
  }

  /** Every emote part carries the platform of the message it belongs to and
      that platform's emote address for its id. */
  lemma EmotesMatchPlatform<B>(platform: string, message: string, extra: Extra<B>)
    ensures forall e :: e in Emotes(ParseParts(platform, message, extra)) ==>
      e.EmotePart? && e.platform == platform
      && e.url == (if platform == "twitch" then TwitchEmotes.EmoteUrl(e.id) else KickEmotes.EmoteUrl(e.id))
  {
    var parts := ParseParts(platform, message, extra);
    if platform == "twitch" && extra.emotes.Some? && |extra.emotes.value| > 0 {
      var sorted := TwitchEmotes.SortByStart(TwitchEmotes.Flatten(message, extra.emotes.value));
      TwitchEmotes.WalkEmotes(message, sorted, 0, 0);
      forall e | e in Emotes(parts)
        ensures e.EmotePart? && e.platform == platform && e.url == TwitchEmotes.EmoteUrl(e.id)
      {
        var i :| 0 <= i < |Emotes(parts)| && Emotes(parts)[i] == e;
        assert e == TwitchEmotes.EmoteOf(sorted[i]);
      }
    } else if platform == "kick" && extra.kickEmotes.Some? && |extra.kickEmotes.value| > 0 {
      var ms := Markers(message, 0);
      KickEmotes.WalkEmotes(message, 0);
      forall e | e in Emotes(parts)
        ensures e.EmotePart? && e.platform == platform && e.url == KickEmotes.EmoteUrl(e.id)
      {
        var i :| 0 <= i < |Emotes(parts)| && Emotes(parts)[i] == e;
        assert e == KickEmotes.EmoteOf(ms[i]);
      }
    } else {
      assert parts == [TextPart(message)];
      assert Emotes(parts) == Emotes([]);
    }
  }
}
