/** `parseKickEmotes` (server.js): Kick chat text carries its emotes inline
    as `[emote:<id>:<name>]` markers; the parser scans for them left to right
    with the global expression and cuts the text around each one. The list
    of emotes the connector passes in only decides whether to scan at all. */
module KickEmotes {
  import opened JsText
  import opened EmoteMarker
  import opened ChatParts

  const UrlPrefix := "https://files.kick.com/emotes/"
  const UrlSuffix := "/fullsize"
  const EmoteUrlTemplate := UrlPrefix + Placeholder + UrlSuffix

  /** The CDN address of a Kick emote: the URL template filled with its id,
      as `replace('{id}', id)` fills it. */
  function EmoteUrl(id: string): string {
    FillTemplate(UrlPrefix, UrlSuffix, id)
  }

  /** A digit id holds no `$`, so it lands in the Kick URL verbatim. */
  lemma DigitIdUrl(id: string)
    requires AllDigits(id)
    ensures EmoteUrl(id) == UrlPrefix + id + UrlSuffix
  {
    assert '$' !in id by {
      forall i | 0 <= i < |id| ensures id[i] != '$' {
        assert IsDigit(id[i]);
      }
    }
    TemplateFilled(UrlPrefix, UrlSuffix, id);
  }

  /** The part a match turns into: `match[1]` as id, `match[2]` as name. */
  function EmoteOf(m: Marker): Part {
    EmotePart(m.id, m.name, "kick", EmoteUrl(m.id))
  }

  /** The parts the scan emits from cursor `from` on: the text up to the
      next match, the match as an emote, and the scan resumed after it; the
      rest of the text once no match is left. */
  function KickWalk(text: string, from: nat): seq<Part>
    decreases |text| - from
  {
    match FindMarker(text, from)
    case None => TextAfter(text, from)
    case Some(m) =>
      FindMarkerBounds(text, from);
      TextBefore(text, from, m.index) + [EmoteOf(m)] + KickWalk(text, m.End())
  }

  /** What `parseKickEmotes(text, kickEmotes)` returns. */
  function KickParts(text: string, kickEmotes: Option<seq<EmoteRef>>): seq<Part> {
    if kickEmotes.None? || |kickEmotes.value| == 0 then [TextPart(text)]
    else KickWalk(text, 0)
  }

  lemma WalkFound(text: string, from: nat, done: seq<Part>)
    requires FindMarker(text, from).Some?
    ensures var m := FindMarker(text, from).value;
      from < m.End() <= |text|
      && done + KickWalk(text, from) == (done + TextBefore(text, from, m.index) + [EmoteOf(m)]) + KickWalk(text, m.End())
  {
    FindMarkerBounds(text, from);
  }

  lemma WalkDone(text: string, from: nat)
    requires FindMarker(text, from).None?
    ensures KickWalk(text, from) == TextAfter(text, from)
  {
  }

  /** One iteration of the scan: the text between the cursor and the match,
      when there is any, then the emote; the cursor moves past the match. */
  method PlaceEmote(text: string, parts: seq<Part>, currentIndex: nat, m: Marker) returns (parts': seq<Part>, currentIndex': nat)
    ensures parts' == parts + TextBefore(text, currentIndex, m.index) + [EmoteOf(m)]
    ensures currentIndex' == m.End()
  {
    parts' := parts;
    if m.index > currentIndex {
      var textBefore := Substring(text, currentIndex, m.index);
      if textBefore != "" {
        parts' := parts' + [TextPart(textBefore)];
      }
    }
    var emoteId := m.id;
    var emoteName := m.name;
    TemplateFilled(UrlPrefix, UrlSuffix, emoteId);
    parts' := parts' + [EmotePart(emoteId, emoteName, "kick", ReplaceFirst(EmoteUrlTemplate, Placeholder, emoteId))];
    currentIndex' := m.index + m.Length();
  }

  /** The scan loop of `parseKickEmotes` and the trailing text. */
  method ScanMarkers(text: string) returns (parts: seq<Part>)
    ensures parts == KickWalk(text, 0)
  {
    parts := [];
    var currentIndex: nat := 0;
    var found := FindMarker(text, currentIndex);
    while found.Some?
      invariant currentIndex <= |text|
      invariant found == FindMarker(text, currentIndex)
      invariant parts + KickWalk(text, currentIndex) == KickWalk(text, 0)
      decreases |text| - currentIndex
    {
      WalkFound(text, currentIndex, parts);
      parts, currentIndex := PlaceEmote(text, parts, currentIndex, found.value);
      found := FindMarker(text, currentIndex);
    }
    WalkDone(text, currentIndex);
    parts := AppendRest(text, parts, currentIndex);
  }

  method ParseKickEmotes(text: string, kickEmotes: Option<seq<EmoteRef>>) returns (parts: seq<Part>)
    ensures parts == KickParts(text, kickEmotes)
  {
    if kickEmotes.None? || |kickEmotes.value| == 0 {
      return [TextPart(text)];
    }
    parts := ScanMarkers(text);
  }

  /** Without a non-empty emote list the message stays one text part, markers
      and all; with one, the list's contents make no difference. */
  lemma GateOnly(text: string, a: Option<seq<EmoteRef>>, b: Option<seq<EmoteRef>>)
    ensures (a.None? || a.value == []) ==> KickParts(text, a) == [TextPart(text)]
    ensures a.Some? && a.value != [] && b.Some? && b.value != [] ==> KickParts(text, a) == KickParts(text, b)
  {
  }

  /** Reading the scan's parts back, with each emote written as its marker,
      gives the text from the cursor on. */
  lemma {:induction false} WalkReconstructs(text: string, from: nat)
    requires from <= |text|
    ensures RenderMarkup(KickWalk(text, from)) == text[from..]
    decreases |text| - from
  {
    match FindMarker(text, from)
    case None =>
      TextAfterRenders(text, from);
    case Some(m) =>
      FindMarkerBounds(text, from);
      WalkReconstructs(text, m.End());
      ReconstructStep(text, from);
  }

  lemma ReconstructStep(text: string, from: nat)
    requires FindMarker(text, from).Some?
    requires var m := FindMarker(text, from).value;
      m.End() <= |text| && RenderMarkup(KickWalk(text, m.End())) == text[m.End()..]
    ensures RenderMarkup(KickWalk(text, from)) == text[from..]
  {
    var m := FindMarker(text, from).value;
    FindMarkerBounds(text, from);
    TextBeforeRenders(text, from, m.index);
    MarkupOfMatch(text, m);
    RenderMarkupJoin(text, TextBefore(text, from, m.index), EmoteOf(m), KickWalk(text, m.End()), from, m.index, m.End());
  }

  /** An emote part written back as a marker is the text its match covers. */
  lemma MarkupOfMatch(text: string, m: Marker)
    requires WellFormedMatch(text, m)
    ensures MarkupText(EmoteOf(m)) == text[m.index..m.End()]
  {
  }

  /** The parsed message, with each emote written back as its marker, is
      exactly the message — for every message and every emote list. */
  lemma KickReconstructs(text: string, kickEmotes: Option<seq<EmoteRef>>)
    ensures RenderMarkup(KickParts(text, kickEmotes)) == text
  {
    if kickEmotes.None? || |kickEmotes.value| == 0 {
      RenderMarkupSingle(TextPart(text));
    } else {
      WalkReconstructs(text, 0);
    }
  }

  /** The scan emits one emote part per match of the global expression, in
      order. */
  lemma {:induction false} WalkEmotes(text: string, from: nat)
    ensures var ms := Markers(text, from);
      Emotes(KickWalk(text, from)) == seq(|ms|, i requires 0 <= i < |ms| => EmoteOf(ms[i]))
    decreases |text| - from
  {
    match FindMarker(text, from)
    case None =>
      TextAfterNoEmotes(text, from);
    case Some(m) =>
      FindMarkerBounds(text, from);
      WalkEmotes(text, m.End());
      TextBeforeNoEmotes(text, from, m.index);
      EmotesThree(TextBefore(text, from, m.index), EmoteOf(m), KickWalk(text, m.End()));
      EmotesCons(m, Markers(text, m.End()));
  }

  lemma EmotesCons(m: Marker, rest: seq<Marker>)
    ensures var ms := [m] + rest;
      seq(|ms|, i requires 0 <= i < |ms| => EmoteOf(ms[i]))
      == [EmoteOf(m)] + seq(|rest|, i requires 0 <= i < |rest| => EmoteOf(rest[i]))
  {
  }

  /** The scan never emits an empty text part. */
  lemma {:induction false} WalkNoEmptyText(text: string, from: nat)
    ensures NoEmptyText(KickWalk(text, from))
    decreases |text| - from
  {
    match FindMarker(text, from)
    case None =>
      TextAfterNoEmptyText(text, from);
    case Some(m) =>
      FindMarkerBounds(text, from);
      WalkNoEmptyText(text, m.End());
      TextBeforeNoEmptyText(text, from, m.index);
      NoEmptyTextThree(TextBefore(text, from, m.index), EmoteOf(m), KickWalk(text, m.End()));
  }

  /** No two text parts are adjacent, and there are at most two parts per
      match plus one: each match adds at most one text part before it. */
  lemma {:induction false} WalkShape(text: string, from: nat)
    ensures NoAdjacentText(KickWalk(text, from))
    ensures |KickWalk(text, from)| <= 2 * |Markers(text, from)| + 1
    decreases |text| - from
  {
    match FindMarker(text, from)
    case None =>
      TextAfterShort(text, from);
    case Some(m) =>
      FindMarkerBounds(text, from);
      WalkShape(text, m.End());
      TextBeforeShort(text, from, m.index);
      NoAdjacentTextThree(TextBefore(text, from, m.index), EmoteOf(m), KickWalk(text, m.End()));
  }

  /** The properties of the Kick parse, for every message and every
      emote list that gates the scan on: one emote part per marker, in order,
      each with a digit id, a name without `]`, the platform `kick` and its
      CDN address; no empty text part, no two text parts side by side, and
      at most 2k + 1 parts for k markers. */
  lemma KickEmotesFromMarkers(text: string, kickEmotes: seq<EmoteRef>)
    requires |kickEmotes| > 0
    ensures var ms := Markers(text, 0);
      var parts := KickParts(text, Some(kickEmotes));
      && Emotes(parts) == seq(|ms|, i requires 0 <= i < |ms| => EmoteOf(ms[i]))
      && (forall i :: 0 <= i < |ms| ==> |ms[i].id| > 0 && AllDigits(ms[i].id) && ValidName(ms[i].name))
      && NoEmptyText(parts) && NoAdjacentText(parts)
      && |parts| <= 2 * |ms| + 1
  {
    var ms := Markers(text, 0);
    WalkEmotes(text, 0);
    WalkNoEmptyText(text, 0);
    WalkShape(text, 0);
    MarkersWellFormed(text, 0);
    assert forall i :: 0 <= i < |ms| ==> ms[i] in ms;
  }
}
