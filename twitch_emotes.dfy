/** `parseTwitchEmotes` (server.js): the IRC `emotes` tag maps each emote id
    to the inclusive character ranges it covers; the parser flattens them,
    sorts them by start and walks the text with a cursor. */
module TwitchEmotes {
  import opened JsText
  import opened ChatParts

  const UrlPrefix := "https://static-cdn.jtvnw.net/emoticons/v2/"
  const UrlSuffix := "/default/dark/1.0"
  const EmoteUrlTemplate := UrlPrefix + Placeholder + UrlSuffix

  /** The CDN address of an emote: the URL template filled with its id,
      as `replace('{id}', id)` fills it. */
  function EmoteUrl(id: string): string {
    FillTemplate(UrlPrefix, UrlSuffix, id)
  }

  /** One `"start-end"` entry of the tag, already read as numbers. */
  datatype Range = Range(start: nat, end: nat)

  /** One `[id, positions]` pair of `Object.entries(emotesTag)`. */
  datatype EmoteEntry = EmoteEntry(id: string, positions: seq<Range>)

  /** One element of `emotePositions`. */
  datatype Position = Position(start: nat, end: nat, id: string, name: string)

  function PositionOf(text: string, id: string, r: Range): Position {
    Position(r.start, r.end, id, Substring(text, r.start, r.end + 1))
  }

  function EntryPositions(text: string, e: EmoteEntry): seq<Position> {
    seq(|e.positions|, i requires 0 <= i < |e.positions| => PositionOf(text, e.id, e.positions[i]))
  }

  /** `emotePositions` before sorting: entry by entry, range by range. */
  function Flatten(text: string, entries: seq<EmoteEntry>): seq<Position> {
    if entries == [] then []
    else Flatten(text, entries[..|entries| - 1]) + EntryPositions(text, entries[|entries| - 1])
  }

  predicate SortedByStart(ps: seq<Position>) {
    forall i, j :: 0 <= i < j < |ps| ==> ps[i].start <= ps[j].start
  }

  /** Places `p` after every element whose start is not greater. */
  function InsertByStart(s: seq<Position>, p: Position): seq<Position> {
    if s == [] then [p]
    else if s[|s| - 1].start <= p.start then s + [p]
    else InsertByStart(s[..|s| - 1], p) + [s[|s| - 1]]
  }

  /** `emotePositions.sort((a, b) => a.start - b.start)`: a stable sort by
      start offset. */
  function SortByStart(ps: seq<Position>): seq<Position> {
    if ps == [] then []
    else InsertByStart(SortByStart(ps[..|ps| - 1]), ps[|ps| - 1])
  }

  /** Where `InsertByStart` places the new position. */
  function InsertPoint(s: seq<Position>, p: Position): (k: nat)
    ensures k <= |s|
  {
    if s == [] then 0
    else if s[|s| - 1].start <= p.start then |s|
    else InsertPoint(s[..|s| - 1], p)
  }

  /** Insertion splices the position in at its insert point; in a sorted
      sequence everything before that point starts no later than it and
      everything after starts later. */
  lemma {:induction false} InsertByStartShape(s: seq<Position>, p: Position)
    ensures var k := InsertPoint(s, p);
      InsertByStart(s, p) == s[..k] + [p] + s[k..]
    ensures SortedByStart(s) ==> var k := InsertPoint(s, p);
      (forall i :: 0 <= i < k ==> s[i].start <= p.start) && (forall i :: k <= i < |s| ==> s[i].start > p.start)
    decreases |s|
  {
    if s != [] && s[|s| - 1].start > p.start {
      var init := s[..|s| - 1];
      var k := InsertPoint(init, p);
      InsertByStartShape(init, p);
      assert s[..k] == init[..k];
      assert s[k..] == init[k..] + [s[|s| - 1]];
    } else if s != [] {
      assert s[..|s|] == s;
    }
  }

  lemma InsertByStartSorted(s: seq<Position>, p: Position)
    requires SortedByStart(s)
    ensures SortedByStart(InsertByStart(s, p))
  {
    var k := InsertPoint(s, p);
    InsertByStartShape(s, p);
    var r := InsertByStart(s, p);
    assert |r| == |s| + 1;
    assert forall i :: 0 <= i < k ==> r[i] == s[i];
    assert r[k] == p;
    assert forall i :: k < i < |r| ==> r[i] == s[i - 1];
    forall i, j | 0 <= i < j < |r| ensures r[i].start <= r[j].start {
      if j < k {
        assert r[i] == s[i] && r[j] == s[j];
      } else if j == k {
        assert r[i] == s[i];
      } else if i < k {
        assert r[i] == s[i] && r[j] == s[j - 1];
      } else if i == k {
        assert r[j] == s[j - 1];
      } else {
        assert r[i] == s[i - 1] && r[j] == s[j - 1];
      }
    }
  }

  lemma InsertByStartPermutes(s: seq<Position>, p: Position)
    ensures multiset(InsertByStart(s, p)) == multiset(s) + multiset{p}
  {
    var k := InsertPoint(s, p);
    InsertByStartShape(s, p);
    assert s == s[..k] + s[k..];
  }

  /** The sort returns the same positions, ordered by start. */
  lemma SortByStartCorrect(ps: seq<Position>)
    ensures SortedByStart(SortByStart(ps))
    ensures multiset(SortByStart(ps)) == multiset(ps)
  {
    SortByStartSorted(ps);
    SortByStartPermutes(ps);
  }

  lemma {:induction false} SortByStartSorted(ps: seq<Position>)
    ensures SortedByStart(SortByStart(ps))
  {
    if ps != [] {
      SortByStartSorted(ps[..|ps| - 1]);
      InsertByStartSorted(SortByStart(ps[..|ps| - 1]), ps[|ps| - 1]);
    }
  }

  lemma {:induction false} SortByStartPermutes(ps: seq<Position>)
    ensures multiset(SortByStart(ps)) == multiset(ps)
  {
    if ps != [] {
      var init := ps[..|ps| - 1];
      SortByStartPermutes(init);
      InsertByStartPermutes(SortByStart(init), ps[|ps| - 1]);
      MultisetSnoc(ps);
    }
  }

  lemma MultisetSnoc<T>(s: seq<T>)
    requires |s| > 0
    ensures multiset(s) == multiset(s[..|s| - 1]) + multiset{s[|s| - 1]}
  {
    assert s == s[..|s| - 1] + [s[|s| - 1]];
  }

  /** The part an emote position turns into. */
  function EmoteOf(p: Position): Part {
    EmotePart(p.id, p.name, "twitch", EmoteUrl(p.id))
  }

  /** The parts the cursor walk emits for the sorted positions `ps` from
      index `k` on, with the cursor at `last`. */
  function Walk(text: string, ps: seq<Position>, k: nat, last: nat): seq<Part>
    requires k <= |ps|
    decreases |ps| - k
  {
    if k == |ps| then TextAfter(text, last)
    else TextBefore(text, last, ps[k].start) + [EmoteOf(ps[k])] + Walk(text, ps, k + 1, ps[k].end + 1)
  }

  /** One step of the walk, with the parts emitted so far in front. */
  lemma WalkStep(text: string, ps: seq<Position>, k: nat, last: nat, done: seq<Part>)
    requires k < |ps|
    ensures done + Walk(text, ps, k, last)
      == (done + TextBefore(text, last, ps[k].start) + [EmoteOf(ps[k])]) + Walk(text, ps, k + 1, ps[k].end + 1)
  {
  }

  /** What `parseTwitchEmotes(text, emotesTag)` returns. An absent tag, or
      one without keys, yields the whole text as one part. */
  function TwitchParts(text: string, emotesTag: Option<seq<EmoteEntry>>): seq<Part> {
    if emotesTag.None? || |emotesTag.value| == 0 then [TextPart(text)]
    else Walk(text, SortByStart(Flatten(text, emotesTag.value)), 0, 0)
  }

  /** The flattening loops of `parseTwitchEmotes`: every range of every
      entry, in order, with the text it covers. */
  method FlattenEntries(text: string, entries: seq<EmoteEntry>) returns (emotePositions: seq<Position>)
    ensures emotePositions == Flatten(text, entries)
  {
    emotePositions := [];
    for i := 0 to |entries|
      invariant emotePositions == Flatten(text, entries[..i])
    {
      emotePositions := PushEntry(text, emotePositions, entries[i]);
      assert entries[..i + 1][..i] == entries[..i];
    }
    assert entries[..|entries|] == entries;
  }

  /** The inner loop: every range of one entry is pushed, in order. */
  method PushEntry(text: string, emotePositions: seq<Position>, entry: EmoteEntry) returns (emotePositions': seq<Position>)
    ensures emotePositions' == emotePositions + EntryPositions(text, entry)
  {
    emotePositions' := emotePositions;
    for j := 0 to |entry.positions|
      invariant emotePositions' == emotePositions + seq(j, k requires 0 <= k < j => PositionOf(text, entry.id, entry.positions[k]))
    {
      var pos := entry.positions[j];
      emotePositions' := emotePositions' + [PositionOf(text, entry.id, pos)];
    }
  }

  /** One iteration of the cursor loop: the text between the cursor and the
      emote, when there is any, then the emote; the cursor moves past the
      emote's last character. */
  method PlaceEmote(text: string, parts: seq<Part>, lastIndex: nat, emote: Position) returns (parts': seq<Part>, lastIndex': nat)
    ensures parts' == parts + TextBefore(text, lastIndex, emote.start) + [EmoteOf(emote)]
    ensures lastIndex' == emote.end + 1
  {
    parts' := parts;
    if emote.start > lastIndex {
      var textBefore := Substring(text, lastIndex, emote.start);
      if textBefore != "" {
        parts' := parts' + [TextPart(textBefore)];
      }
    }
    TemplateFilled(UrlPrefix, UrlSuffix, emote.id);
    parts' := parts' + [EmotePart(emote.id, emote.name, "twitch", ReplaceFirst(EmoteUrlTemplate, Placeholder, emote.id))];
    lastIndex' := emote.end + 1;
  }

  /** The cursor loop of `parseTwitchEmotes` over the sorted positions,
      followed by the trailing text. */
  method WalkSorted(text: string, sorted: seq<Position>) returns (parts: seq<Part>)
    ensures parts == Walk(text, sorted, 0, 0)
  {
    parts := [];
    var lastIndex: nat := 0;
    for k := 0 to |sorted|
      invariant parts + Walk(text, sorted, k, lastIndex) == Walk(text, sorted, 0, 0)
    {
      WalkStep(text, sorted, k, lastIndex, parts);
      parts, lastIndex := PlaceEmote(text, parts, lastIndex, sorted[k]);
    }
    parts := AppendRest(text, parts, lastIndex);
  }

  method ParseTwitchEmotes(text: string, emotesTag: Option<seq<EmoteEntry>>) returns (parts: seq<Part>)
    ensures parts == TwitchParts(text, emotesTag)
  {
    if emotesTag.None? || |emotesTag.value| == 0 {
      return [TextPart(text)];
    }
    var emotePositions := FlattenEntries(text, emotesTag.value);
    var sorted := SortByStart(emotePositions);
    parts := WalkSorted(text, sorted);
  }

  /** An absent emote tag, or one without keys, leaves the message as one
      text part, even an empty one. */
  lemma NoTagIsPlainText(text: string, emotesTag: Option<seq<EmoteEntry>>)
    requires emotesTag.None? || emotesTag.value == []
    ensures TwitchParts(text, emotesTag) == [TextPart(text)]
  {
  }

  /** The walk never emits an empty text part. */
  lemma {:induction false} WalkNoEmptyText(text: string, ps: seq<Position>, k: nat, last: nat)
    requires k <= |ps|
    ensures NoEmptyText(Walk(text, ps, k, last))
    decreases |ps| - k
  {
    if k == |ps| {
      TextAfterNoEmptyText(text, last);
    } else {
      WalkNoEmptyText(text, ps, k + 1, ps[k].end + 1);
      TextBeforeNoEmptyText(text, last, ps[k].start);
      NoEmptyTextThree(TextBefore(text, last, ps[k].start), EmoteOf(ps[k]), Walk(text, ps, k + 1, ps[k].end + 1));
    }
  }

  /** The walk emits exactly one emote part per position, in the order of
      `ps`, each carrying the platform `twitch` and its templated URL. */
  lemma {:induction false} WalkEmotes(text: string, ps: seq<Position>, k: nat, last: nat)
    requires k <= |ps|
    ensures Emotes(Walk(text, ps, k, last)) == seq(|ps| - k, i requires 0 <= i < |ps| - k => EmoteOf(ps[k + i]))
    decreases |ps| - k
  {
    if k == |ps| {
      TextAfterNoEmotes(text, last);
    } else {
      TextBeforeNoEmotes(text, last, ps[k].start);
      WalkEmotes(text, ps, k + 1, ps[k].end + 1);
      EmotesThree(TextBefore(text, last, ps[k].start), EmoteOf(ps[k]), Walk(text, ps, k + 1, ps[k].end + 1));
      EmotesFrom(ps, k);
    }
  }

  lemma EmotesFrom(ps: seq<Position>, k: nat)
    requires k < |ps|
    ensures seq(|ps| - k, i requires 0 <= i < |ps| - k => EmoteOf(ps[k + i]))
      == [EmoteOf(ps[k])] + seq(|ps| - (k + 1), i requires 0 <= i < |ps| - (k + 1) => EmoteOf(ps[k + 1 + i]))
  {
  }

  /** Positions that lie inside the text, carry the text they cover as name,
      and each end before the next one starts. */
  predicate WellPlaced(text: string, ps: seq<Position>) {
    && (forall i :: 0 <= i < |ps| ==> ps[i].start <= ps[i].end < |text| && ps[i].name == text[ps[i].start..ps[i].end + 1])
    && (forall i, j :: 0 <= i < j < |ps| ==> ps[i].end < ps[j].start)
  }

  /** From a cursor at or before the next position, the walk's parts read
      back with emote names give the rest of the text. */
  lemma {:induction false} WalkReconstructs(text: string, ps: seq<Position>, k: nat, last: nat)
    requires WellPlaced(text, ps) && k <= |ps|
    requires last <= |text| && (k < |ps| ==> last <= ps[k].start)
    ensures RenderNames(Walk(text, ps, k, last)) == text[last..]
    decreases |ps| - k
  {
    if k == |ps| {
      TextAfterRenders(text, last);
    } else {
      assert k + 1 < |ps| ==> ps[k].end < ps[k + 1].start;
      WalkReconstructs(text, ps, k + 1, ps[k].end + 1);
      ReconstructStep(text, ps, k, last);
    }
  }

  /** The text before an emote, the emote's name and the rest of the walk
      read back as the rest of the text. */
  lemma ReconstructStep(text: string, ps: seq<Position>, k: nat, last: nat)
    requires k < |ps|
    requires last <= ps[k].start <= ps[k].end < |text| && ps[k].name == text[ps[k].start..ps[k].end + 1]
    requires RenderNames(Walk(text, ps, k + 1, ps[k].end + 1)) == text[ps[k].end + 1..]
    ensures RenderNames(Walk(text, ps, k, last)) == text[last..]
  {
    var p := ps[k];
    var before, rest := TextBefore(text, last, p.start), Walk(text, ps, k + 1, p.end + 1);
    assert Walk(text, ps, k, last) == before + [EmoteOf(p)] + rest;
    assert NameText(EmoteOf(p)) == p.name;
    TextBeforeRenders(text, last, p.start);
    RenderJoin(text, before, EmoteOf(p), rest, last, p.start, p.end + 1);
  }

  /** Two ranges share no character. */
  predicate Disjoint(a: Position, b: Position) {
    a.end < b.start || b.end < a.start
  }

  /** The ranges of the tag lie inside the text and no two overlap. */
  predicate ProperRanges(text: string, ps: seq<Position>) {
    && (forall p :: p in ps ==> p.start <= p.end < |text|)
    && (forall i, j :: 0 <= i < j < |ps| ==> Disjoint(ps[i], ps[j]))
  }

  lemma {:induction false} InsertByStartDisjoint(s: seq<Position>, p: Position)
    requires forall i, j :: 0 <= i < j < |s| ==> Disjoint(s[i], s[j])
    requires forall x :: x in s ==> Disjoint(x, p)
    ensures forall i, j :: 0 <= i < j < |InsertByStart(s, p)| ==> Disjoint(InsertByStart(s, p)[i], InsertByStart(s, p)[j])
  {
    var k := InsertPoint(s, p);
    InsertByStartShape(s, p);
    var r := InsertByStart(s, p);
    forall i, j | 0 <= i < j < |r| ensures Disjoint(r[i], r[j]) {
      var si := if i < k then i else i - 1;
      var sj := if j <= k then j else j - 1;
      if i != k && j != k {
        assert r[i] == s[si] && r[j] == s[sj] && si < sj;
      } else if i == k {
        assert r[i] == p && r[j] == s[sj];
        assert s[sj] in s;
      } else {
        assert r[j] == p && r[i] == s[si];
        assert s[si] in s;
      }
    }
  }

  lemma SortedInsertMembers(s: seq<Position>, p: Position)
    ensures forall x :: x in InsertByStart(s, p) <==> x in s || x == p
  {
    var k := InsertPoint(s, p);
    InsertByStartShape(s, p);
    assert s == s[..k] + s[k..];
  }

  lemma {:induction false} SortMembers(ps: seq<Position>)
    ensures forall x :: x in SortByStart(ps) <==> x in ps
  {
    if ps != [] {
      var init := ps[..|ps| - 1];
      SortMembers(init);
      SortedInsertMembers(SortByStart(init), ps[|ps| - 1]);
      assert ps == init + [ps[|ps| - 1]];
    }
  }

  /** Sorting keeps the ranges pairwise disjoint. */
  lemma {:induction false} SortByStartDisjoint(ps: seq<Position>)
    requires forall i, j :: 0 <= i < j < |ps| ==> Disjoint(ps[i], ps[j])
    ensures forall i, j :: 0 <= i < j < |SortByStart(ps)| ==> Disjoint(SortByStart(ps)[i], SortByStart(ps)[j])
  {
    if ps != [] {
      var init, last := ps[..|ps| - 1], ps[|ps| - 1];
      forall i, j | 0 <= i < j < |init| ensures Disjoint(init[i], init[j]) {
        assert init[i] == ps[i] && init[j] == ps[j];
      }
      SortByStartDisjoint(init);
      SortMembers(init);
      forall x | x in SortByStart(init) ensures Disjoint(x, last) {
        var k :| 0 <= k < |init| && init[k] == x;
        assert ps[k] == x;
      }
      InsertByStartDisjoint(SortByStart(init), last);
    }
  }

  /** Every flattened position carries the text its range covers. */
  lemma {:induction false} FlattenNames(text: string, entries: seq<EmoteEntry>)
    ensures forall p :: p in Flatten(text, entries) ==> p.name == Substring(text, p.start, p.end + 1)
  {
    if entries != [] {
      FlattenNames(text, entries[..|entries| - 1]);
    }
  }

  /** Ranges that lie in the text and do not overlap come out of the sort
      well placed. */
  lemma SortedProperIsWellPlaced(text: string, ps: seq<Position>)
    requires ProperRanges(text, ps)
    requires forall p :: p in ps ==> p.name == Substring(text, p.start, p.end + 1)
    ensures WellPlaced(text, SortByStart(ps))
  {
    var r := SortByStart(ps);
    SortByStartCorrect(ps);
    SortByStartDisjoint(ps);
    SortMembers(ps);
    forall i | 0 <= i < |r| ensures r[i].start <= r[i].end < |text| && r[i].name == text[r[i].start..r[i].end + 1] {
      assert r[i] in ps;
    }
    forall i, j | 0 <= i < j < |r| ensures r[i].end < r[j].start {
      assert r[j] in ps;
    }
  }

  /** The main reconstruction property: when the tag's ranges lie in the
      text and do not overlap, the parts read back with emote names give
      the message exactly. */
  lemma TwitchReconstructs(text: string, emotesTag: Option<seq<EmoteEntry>>)
    requires emotesTag.Some? ==> ProperRanges(text, Flatten(text, emotesTag.value))
    ensures RenderNames(TwitchParts(text, emotesTag)) == text
  {
    if emotesTag.Some? && |emotesTag.value| > 0 {
      var ps := Flatten(text, emotesTag.value);
      FlattenNames(text, emotesTag.value);
      SortedProperIsWellPlaced(text, ps);
      WalkReconstructs(text, SortByStart(ps), 0, 0);
    } else {
      assert RenderNames([TextPart(text)]) == text;
    }
  }

  /** With a tag that has keys: one emote part per flattened position, in
      ascending start order, with no empty text part. */
  lemma TwitchEmotesInOrder(text: string, entries: seq<EmoteEntry>)
    requires |entries| > 0
    ensures var sorted := SortByStart(Flatten(text, entries));
      && Emotes(TwitchParts(text, Some(entries))) == seq(|sorted|, i requires 0 <= i < |sorted| => EmoteOf(sorted[i]))
      && SortedByStart(sorted)
      && multiset(sorted) == multiset(Flatten(text, entries))
      && NoEmptyText(TwitchParts(text, Some(entries)))
  {
    var sorted := SortByStart(Flatten(text, entries));
    WalkEmotes(text, sorted, 0, 0);
    SortByStartCorrect(Flatten(text, entries));
    WalkNoEmptyText(text, sorted, 0, 0);
  }
}
