/** The chat-event shaping of the browser-based Kick connector
    (kick-adapters/puppeteer-adapter.js): which intercepted WebSocket frames
    are looked at, and the record built from a Pusher `ChatMessageEvent`:
    name and text with their fallbacks, badges with their defaults, the role
    flags, and the emotes found in the text. Launching the browser and
    `JSON.parse` are not modelled: a frame arrives with its parse result. */
module KickPuppeteer {
  import opened JsText
  import opened EmoteMarker
  import opened ChatParts
  import KickEmotes

  /** An entry of `identity.badges`. */
  datatype RawBadge = RawBadge(kind: string, text: Option<string>, count: Option<int>)

  datatype Identity = Identity(badges: Option<seq<RawBadge>>, color: Option<string>)

  datatype Sender = Sender(username: Option<string>, identity: Option<Identity>)

  /** The event's `data`, parsed; `None` when parsing it fails. */
  datatype EventData = EventData(
    sender: Option<Sender>,
    username: Option<string>,
    content: Option<string>,
    message: Option<string>)

  /** A Pusher message: `event` and `data`. */
  datatype PusherEvent = PusherEvent(event: Option<string>, data: Option<EventData>)

  /** An entry of the record's `badges`. */
  datatype Badge = Badge(kind: string, text: string, count: int)

  /** The record passed to `onMessage`. */
  datatype MessageData = MessageData(
    username: string,
    message: string,
    badges: seq<Badge>,
    emotes: seq<EmoteRef>,
    isModerator: bool,
    isSubscriber: bool,
    isVIP: bool,
    isBroadcaster: bool,
    isOG: bool,
    isFounder: bool,
    isVerified: bool,
    color: Option<string>,
    timestamp: int)

  /** `{type, text: text || type, count: count || 0}` */
  function NormalizeBadge(b: RawBadge): Badge {
    Badge(b.kind, OrElse(b.text, b.kind), if b.count.Some? then b.count.value else 0)
  }

  /** `rawBadges.map(...)` */
  function NormalizeBadges(raw: seq<RawBadge>): (badges: seq<Badge>)
    ensures |badges| == |raw|
    ensures forall i :: 0 <= i < |raw| ==> badges[i] == NormalizeBadge(raw[i])
  {
    seq(|raw|, i requires 0 <= i < |raw| => NormalizeBadge(raw[i]))
  }

  /** `rawBadges.some(b => b.type === kind)` */
  predicate HasBadge(raw: seq<RawBadge>, kind: string) {
    exists i :: 0 <= i < |raw| && raw[i].kind == kind
  }

  function SenderOf(d: EventData): Sender {
    if d.sender.Some? then d.sender.value else Sender(None, None)
  }

  function IdentityOf(d: EventData): Identity {
    var s := SenderOf(d);
    if s.identity.Some? then s.identity.value else Identity(None, None)
  }

  function RawBadges(d: EventData): seq<RawBadge> {
    var i := IdentityOf(d);
    if i.badges.Some? then i.badges.value else []
  }

  /** `eventData.sender?.username || eventData.username || 'Unknown'` */
  function UsernameOf(d: EventData): string {
    OrElse(SenderOf(d).username, OrElse(d.username, "Unknown"))
  }

  /** `eventData.content || eventData.message || ''` */
  function MessageOf(d: EventData): string {
    OrElse(d.content, OrElse(d.message, ""))
  }

  predicate IsChatEvent(ev: PusherEvent) {
    ev.event.Some? && Contains(ev.event.value, "ChatMessageEvent")
  }

  /** The record `handlePusherMessage` hands to `onMessage` for a parse
      result, if any: nothing when the payload does not parse, the event is
      not a chat message, its data does not parse, or the text is empty. */
  function ChatRecord(parsed: Option<PusherEvent>, now: int): Option<MessageData> {
    if parsed.None? || !IsChatEvent(parsed.value) || parsed.value.data.None? then None
    else
      var d := parsed.value.data.value;
      var message := MessageOf(d);
      if message == "" then None
      else
        var raw := RawBadges(d);
        Some(MessageData(
          UsernameOf(d), message, NormalizeBadges(raw), MarkerRefs(message, 0),
          HasBadge(raw, "moderator"), HasBadge(raw, "subscriber"), HasBadge(raw, "vip"),
          HasBadge(raw, "broadcaster"), HasBadge(raw, "og"), HasBadge(raw, "founder"),
          HasBadge(raw, "verified"),
          if Truthy(IdentityOf(d).color) then IdentityOf(d).color else None,
          now))
  }

  /** The emote loop of `handlePusherMessage`: `emoteRegex.exec(message)`
      until it returns `null`, one `{id, name}` per match. */
  method ExtractEmotes(message: string) returns (emotes: seq<EmoteRef>)
    ensures emotes == MarkerRefs(message, 0)
  {
    emotes := [];
    var lastIndex: nat := 0;
    var emoteMatch := FindMarker(message, lastIndex);
    while emoteMatch.Some?
      invariant lastIndex <= |message|
      invariant emoteMatch == FindMarker(message, lastIndex)
      invariant emotes + MarkerRefs(message, lastIndex) == MarkerRefs(message, 0)
      decreases |message| - lastIndex
    {
      RefsStep(message, lastIndex, emotes);
      emotes, lastIndex := PushMatch(emotes, emoteMatch.value);
      emoteMatch := FindMarker(message, lastIndex);
    }
    MarkerRefsDone(message, lastIndex);
  }

  /** The body of the emote loop: `emoteMatch[1]` and `emoteMatch[2]` are
      pushed, and the expression's `lastIndex` moves past the match. */
  method PushMatch(emotes: seq<EmoteRef>, m: Marker) returns (emotes': seq<EmoteRef>, lastIndex': nat)
    ensures emotes' == emotes + [ToRef(m)] && lastIndex' == m.End()
  {
    emotes' := emotes + [EmoteRef(m.id, m.name)];
    lastIndex' := m.index + m.Length();
  }

  /** One iteration of the emote loop: the match's record is appended and
      the search resumes at the match's end, further on in the text. */
  lemma RefsStep(message: string, lastIndex: nat, emotes: seq<EmoteRef>)
    requires FindMarker(message, lastIndex).Some?
    ensures var m := FindMarker(message, lastIndex).value;
      && lastIndex < m.End() <= |message|
      && emotes + MarkerRefs(message, lastIndex) == (emotes + [ToRef(m)]) + MarkerRefs(message, m.End())
  {
    FindMarkerBounds(message, lastIndex);
  }

  /** The badges keep the raw badges' number, order and types, with the
      text defaulting to the type and the count to 0; each role flag holds
      exactly when some badge of the record has that type. */
  lemma RecordBadgesAndFlags(parsed: Option<PusherEvent>, now: int)
    requires ChatRecord(parsed, now).Some?
    ensures var r := ChatRecord(parsed, now).value;
      var raw := RawBadges(parsed.value.data.value);
      && |r.badges| == |raw|
      && (forall i :: 0 <= i < |raw| ==>
            && r.badges[i].kind == raw[i].kind
            && r.badges[i].text == (if Truthy(raw[i].text) then raw[i].text.value else raw[i].kind)
            && r.badges[i].count == (if raw[i].count.Some? then raw[i].count.value else 0))
      && (r.isModerator <==> exists b :: b in r.badges && b.kind == "moderator")
      && (r.isSubscriber <==> exists b :: b in r.badges && b.kind == "subscriber")
      && (r.isVIP <==> exists b :: b in r.badges && b.kind == "vip")
      && (r.isBroadcaster <==> exists b :: b in r.badges && b.kind == "broadcaster")
      && (r.isOG <==> exists b :: b in r.badges && b.kind == "og")
      && (r.isFounder <==> exists b :: b in r.badges && b.kind == "founder")
      && (r.isVerified <==> exists b :: b in r.badges && b.kind == "verified")
  {
    var r := ChatRecord(parsed, now).value;
    var raw := RawBadges(parsed.value.data.value);
    forall kind: string
      ensures HasBadge(raw, kind) <==> exists b :: b in r.badges && b.kind == kind
    {
      if HasBadge(raw, kind) {
        var i :| 0 <= i < |raw| && raw[i].kind == kind;
        assert r.badges[i] in r.badges;
      }
    }
  }

  /** The record's name and text: the name is never empty, the text is
      the content, else the message field, and is never empty; nothing is
      handed on for an event that is not a chat message or whose payload
      does not parse. */
  lemma RecordText(parsed: Option<PusherEvent>, now: int)
    ensures parsed.None? ==> ChatRecord(parsed, now).None?
    ensures parsed.Some? && !IsChatEvent(parsed.value) ==> ChatRecord(parsed, now).None?
    ensures parsed.Some? && IsChatEvent(parsed.value) && parsed.value.data.Some? ==> (
      var d := parsed.value.data.value;
      && (ChatRecord(parsed, now).None? <==> !Truthy(d.content) && !Truthy(d.message))
      && (ChatRecord(parsed, now).Some? ==>
            var r := ChatRecord(parsed, now).value;
            && r.username != "" && r.message != ""
            && (Truthy(SenderOf(d).username) ==> r.username == SenderOf(d).username.value)
            && (!Truthy(SenderOf(d).username) && Truthy(d.username) ==> r.username == d.username.value)
            && (!Truthy(SenderOf(d).username) && !Truthy(d.username) ==> r.username == "Unknown")
            && (Truthy(d.content) ==> r.message == d.content.value)
            && (!Truthy(d.content) ==> r.message == d.message.value)
            && r.color == (if Truthy(IdentityOf(d).color) then IdentityOf(d).color else None)
            && (r.color.Some? ==> r.color.value != "")))
  {
  }

  /** The emotes of the record are the markers of its text, one per match,
      left to right, and they are exactly the emotes the server's Kick
      parser finds when given this list: as many, with the same ids and
      names, in the same order. */
  lemma EmotesAgreeWithServer(message: string)
    ensures var refs := MarkerRefs(message, 0);
      var es := Emotes(KickEmotes.KickParts(message, Some(refs)));
      && |es| == |refs| == |Markers(message, 0)|
      && (forall i :: 0 <= i < |refs| ==> es[i].EmotePart? && es[i].id == refs[i].id && es[i].name == refs[i].name)
  {
    var refs := MarkerRefs(message, 0);
    var ms := Markers(message, 0);
    MarkerRefsOfMarkers(message, 0);
    if |refs| > 0 {
      KickEmotes.KickEmotesFromMarkers(message, refs);
    } else {
      assert [TextPart(message)][1..] == [];
      assert Emotes(KickEmotes.KickParts(message, Some(refs))) == [];
    }
  }

  /** The connector state the frame handler reads, and the records handed
      to `onMessage` so far. */
  class PuppeteerAdapter {
    var isRunning: bool
    var delivered: seq<MessageData>

    constructor ()
      ensures !isRunning && delivered == []
    {
      isRunning := false;
      delivered := [];
    }

    /** `handlePusherMessage(payload)`, given what `JSON.parse` makes of the
        payload and `Date.now()`: the record, if any, goes to `onMessage`;
        a failure is swallowed. */
    method HandlePusherMessage(parsed: Option<PusherEvent>, now: int)
      modifies this
      ensures delivered == old(delivered) + (if ChatRecord(parsed, now).Some? then [ChatRecord(parsed, now).value] else [])
      ensures isRunning == old(isRunning)
    {
      if parsed.None? {
        return;
      }
      var data := parsed.value;
      if !(data.event.Some? && Contains(data.event.value, "ChatMessageEvent")) {
        return;
      }
      if data.data.None? {
        return;
      }
      var eventData := data.data.value;
      var username := OrElse(if eventData.sender.Some? then eventData.sender.value.username else None, OrElse(eventData.username, "Unknown"));
      var message := OrElse(eventData.content, OrElse(eventData.message, ""));
      if username == "" || message == "" {
        return;
      }
      var sender := SenderOf(eventData);
      var identity := IdentityOf(eventData);
      var rawBadges := if identity.badges.Some? then identity.badges.value else [];
      var badges := NormalizeBadges(rawBadges);
      var emotes := ExtractEmotes(message);
      var messageData := MessageData(
        username, message, badges, emotes,
        HasBadge(rawBadges, "moderator"), HasBadge(rawBadges, "subscriber"), HasBadge(rawBadges, "vip"),
        HasBadge(rawBadges, "broadcaster"), HasBadge(rawBadges, "og"), HasBadge(rawBadges, "founder"),
        HasBadge(rawBadges, "verified"),
        if Truthy(identity.color) then identity.color else None,
        now);
      delivered := delivered + [messageData];
    }

    /** The `Network.webSocketFrameReceived` listener: frames are ignored
        while the connector is not running, and otherwise handed on only
        when the payload mentions `pusher:` or `ChatMessageEvent`. */
    method OnFrame(payload: string, parsed: Option<PusherEvent>, now: int)
      modifies this
      ensures isRunning == old(isRunning)
      ensures !isRunning || !(Contains(payload, "pusher:") || Contains(payload, "ChatMessageEvent")) ==> delivered == old(delivered)
      ensures isRunning && (Contains(payload, "pusher:") || Contains(payload, "ChatMessageEvent")) ==>
        delivered == old(delivered) + (if ChatRecord(parsed, now).Some? then [ChatRecord(parsed, now).value] else [])
    {
      if !isRunning {
        return;
      }
      if Contains(payload, "pusher:") || Contains(payload, "ChatMessageEvent") {
        HandlePusherMessage(parsed, now);
      }
    }
  }
}
