/** The parts a chat message is split into: literal text and emote
    occurrences (`{type: 'text', text}` and `{type: 'emote', id, name,
    platform, url}` in the overlay's message format). */
module ChatParts {
  import opened JsText

  datatype Part =
    | TextPart(text: string)
    | EmotePart(id: string, name: string, platform: string, url: string)

  /** A part read back as plain text: an emote shows its name. */
  function NameText(p: Part): string {
    match p
    case TextPart(t) => t
    case EmotePart(_, name, _, _) => name
  }

  /** A part read back as Kick chat text: an emote is written as the
      marker `[emote:<id>:<name>]`. */
  function MarkupText(p: Part): string {
    match p
    case TextPart(t) => t
    case EmotePart(id, name, _, _) => "[emote:" + id + ":" + name + "]"
  }

  /** The message read back with each emote replaced by its name. */
  function RenderNames(parts: seq<Part>): string {
    if parts == [] then "" else NameText(parts[0]) + RenderNames(parts[1..])
  }

  /** The message read back with each emote written as a marker. */
  function RenderMarkup(parts: seq<Part>): string {
    if parts == [] then "" else MarkupText(parts[0]) + RenderMarkup(parts[1..])
  }

  /** The emote parts, in order. */
  function Emotes(parts: seq<Part>): seq<Part> {
    if parts == [] then []
    else (if parts[0].EmotePart? then [parts[0]] else []) + Emotes(parts[1..])
  }

  /** No text part is empty. */
  predicate NoEmptyText(parts: seq<Part>) {
    forall i :: 0 <= i < |parts| && parts[i].TextPart? ==> parts[i].text != ""
  }

  /** No two text parts follow each other. */
  ghost predicate NoAdjacentText(parts: seq<Part>) {
    forall i, j :: 0 <= i < j < |parts| && j == i + 1 ==> !(parts[i].TextPart? && parts[j].TextPart?)
  }

  lemma {:induction false} RenderNamesAppend(a: seq<Part>, b: seq<Part>)
    ensures RenderNames(a + b) == RenderNames(a) + RenderNames(b)
  {
    if a != [] {
      assert (a + b)[1..] == a[1..] + b;
      RenderNamesAppend(a[1..], b);
    } else {
      assert a + b == b;
    }
  }

  lemma {:induction false} RenderMarkupAppend(a: seq<Part>, b: seq<Part>)
    ensures RenderMarkup(a + b) == RenderMarkup(a) + RenderMarkup(b)
  {
    if a != [] {
      assert (a + b)[1..] == a[1..] + b;
      RenderMarkupAppend(a[1..], b);
    } else {
      assert a + b == b;
    }
  }

  lemma {:induction false} EmotesAppend(a: seq<Part>, b: seq<Part>)
    ensures Emotes(a + b) == Emotes(a) + Emotes(b)
  {
    if a != [] {
      assert (a + b)[1..] == a[1..] + b;
      EmotesAppend(a[1..], b);
    } else {
      assert a + b == b;
    }
  }

  /** The text between the cursor and the next emote, if it is not empty:
      both parsers emit `text.substring(cursor, start)` only when the emote
      starts after the cursor and the slice is truthy. */
  function TextBefore(text: string, last: nat, start: nat): seq<Part> {
    if start > last then
      var t := Substring(text, last, start);
      if t != "" then [TextPart(t)] else []
    else []
  }

  /** The text after the cursor once every emote is placed, if it is not
      empty. */
  function TextAfter(text: string, last: nat): seq<Part> {
    if last < |text| then
      var t := SubstringFrom(text, last);
      if t != "" then [TextPart(t)] else []
    else []
  }

  /** The trailing-text step both parsers end with: the rest of the text
      after the cursor, when there is any. */
  method AppendRest(text: string, parts: seq<Part>, last: nat) returns (parts': seq<Part>)
    ensures parts' == parts + TextAfter(text, last)
  {
    parts' := parts;
    if last < |text| {
      var textAfter := SubstringFrom(text, last);
      if textAfter != "" {
        parts' := parts' + [TextPart(textAfter)];
      }
    }
  }

  lemma TextBeforeNoEmotes(text: string, last: nat, start: nat)
    ensures Emotes(TextBefore(text, last, start)) == []
  {
  }

  lemma TextAfterNoEmotes(text: string, last: nat)
    ensures Emotes(TextAfter(text, last)) == []
  {
  }

  lemma EmotesThree(a: seq<Part>, e: Part, b: seq<Part>)
    requires Emotes(a) == [] && e.EmotePart?
    ensures Emotes(a + [e] + b) == [e] + Emotes(b)
  {
    EmotesAppend(a + [e], b);
    EmotesAppend(a, [e]);
    assert Emotes([e]) == [e];
  }

  /** The text between the cursor and an emote reads back as that slice. */
  lemma TextBeforeRenders(text: string, last: nat, start: nat)
    requires last <= start <= |text|
    ensures RenderNames(TextBefore(text, last, start)) == text[last..start]
    ensures RenderMarkup(TextBefore(text, last, start)) == text[last..start]
  {
    if start > last {
      assert RenderNames([TextPart(text[last..start])]) == text[last..start];
      assert RenderMarkup([TextPart(text[last..start])]) == text[last..start];
    }
  }

  /** The trailing text reads back as the rest of the message. */
  lemma TextAfterRenders(text: string, last: nat)
    requires last <= |text|
    ensures RenderNames(TextAfter(text, last)) == text[last..]
    ensures RenderMarkup(TextAfter(text, last)) == text[last..]
  {
    if last < |text| {
      assert RenderNames([TextPart(text[last..])]) == text[last..];
      assert RenderMarkup([TextPart(text[last..])]) == text[last..];
    }
  }

  lemma RenderThree(a: seq<Part>, e: Part, b: seq<Part>)
    ensures RenderNames(a + [e] + b) == RenderNames(a) + NameText(e) + RenderNames(b)
  {
    RenderNamesAppend(a + [e], b);
    RenderNamesAppend(a, [e]);
    RenderNamesSingle(e);
  }

  lemma RenderMarkupThree(a: seq<Part>, e: Part, b: seq<Part>)
    ensures RenderMarkup(a + [e] + b) == RenderMarkup(a) + MarkupText(e) + RenderMarkup(b)
  {
    RenderMarkupAppend(a + [e], b);
    RenderMarkupAppend(a, [e]);
    RenderMarkupSingle(e);
  }

  /** A text part, then an emote, then more parts: with no empty text in the
      first and last pieces, there is none in the whole. */
  lemma NoEmptyTextThree(a: seq<Part>, e: Part, b: seq<Part>)
    requires NoEmptyText(a) && e.EmotePart? && NoEmptyText(b)
    ensures NoEmptyText(a + [e] + b)
  {
    var w := a + [e] + b;
    forall i | 0 <= i < |w| && w[i].TextPart? ensures w[i].text != "" {
      if i < |a| {
        assert w[i] == a[i];
      } else if i > |a| {
        assert w[i] == b[i - |a| - 1];
      }
    }
  }

  lemma TextBeforeNoEmptyText(text: string, last: nat, start: nat)
    ensures NoEmptyText(TextBefore(text, last, start))
  {
  }

  lemma TextAfterNoEmptyText(text: string, last: nat)
    ensures NoEmptyText(TextAfter(text, last))
  {
  }

  lemma RenderNamesSingle(e: Part)
    ensures RenderNames([e]) == NameText(e)
  {
    assert [e][1..] == [];
  }

  lemma RenderMarkupSingle(e: Part)
    ensures RenderMarkup([e]) == MarkupText(e)
  {
    assert [e][1..] == [];
  }

  /** Parts that read back as three consecutive slices of a text read back
      as their join. */
  lemma RenderJoin(text: string, a: seq<Part>, e: Part, b: seq<Part>, i: nat, j: nat, k: nat)
    requires i <= j <= k <= |text|
    requires RenderNames(a) == text[i..j] && NameText(e) == text[j..k] && RenderNames(b) == text[k..]
    ensures RenderNames(a + [e] + b) == text[i..]
  {
    RenderThree(a, e, b);
    SplitSuffix(text, i, j, k);
  }

  /** The same for parts read back as Kick chat text. */
  lemma RenderMarkupJoin(text: string, a: seq<Part>, e: Part, b: seq<Part>, i: nat, j: nat, k: nat)
    requires i <= j <= k <= |text|
    requires RenderMarkup(a) == text[i..j] && MarkupText(e) == text[j..k] && RenderMarkup(b) == text[k..]
    ensures RenderMarkup(a + [e] + b) == text[i..]
  {
    RenderMarkupThree(a, e, b);
    SplitSuffix(text, i, j, k);
  }

  lemma TextBeforeShort(text: string, last: nat, start: nat)
    ensures |TextBefore(text, last, start)| <= 1
  {
  }

  lemma TextAfterShort(text: string, last: nat)
    ensures |TextAfter(text, last)| <= 1
  {
  }

  /** At most one part, then an emote, then parts without two adjacent text
      parts: no two text parts are adjacent in the whole. */
  lemma NoAdjacentTextThree(a: seq<Part>, e: Part, b: seq<Part>)
    requires |a| <= 1 && e.EmotePart? && NoAdjacentText(b)
    ensures NoAdjacentText(a + [e] + b)
  {
    var w := a + [e] + b;
    forall i, j | 0 <= i < j < |w| && j == i + 1 ensures !(w[i].TextPart? && w[j].TextPart?) {
      if i > |a| {
        assert w[i] == b[i - |a| - 1] && w[j] == b[j - |a| - 1];
      } else if i == |a| {
        assert w[i] == e;
      } else {
        assert w[j] == e;
      }
    }
  }
}
