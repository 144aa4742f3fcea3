/** How `parseTwitchEmotes` (server.js) reads emote names when the text is
    counted the way JavaScript counts it. A JavaScript string is a sequence
    of UTF-16 code units, and `substring` and `length` count code units. The
    offsets of the Twitch `emotes` tag count characters (Unicode code
    points), which is how the rest of this model reads them. The two agree
    on text inside the Basic Multilingual Plane and part ways as soon as a
    character outside it, such as most emoji, precedes an emote. */
module Utf16Offsets {
  import opened JsText
  import TwitchEmotes

  /** The UTF-16 code units of one character: one unit inside the Basic
      Multilingual Plane, a surrogate pair outside it. */
  function Units(c: char): (u: seq<int>)
    ensures 1 <= |u| <= 2 && (|u| == 1 <==> c as int < 0x1_0000)
  {
    var v := c as int;
    if v < 0x1_0000 then [v]
    else [0xD800 + (v - 0x1_0000) / 0x400, 0xDC00 + (v - 0x1_0000) % 0x400]
  }

  /** The text as JavaScript holds it. */
  function Encode(s: string): seq<int> {
    if s == [] then [] else Encode(s[..|s| - 1]) + Units(s[|s| - 1])
  }

  /** A text has at least as many code units as characters, and exactly as
      many when every character lies in the Basic Multilingual Plane. */
  lemma {:induction false} EncodeLength(s: string)
    ensures |Encode(s)| >= |s|
    ensures (forall i :: 0 <= i < |s| ==> s[i] as int < 0x1_0000) ==> |Encode(s)| == |s|
  {
    if s != [] {
      var init := s[..|s| - 1];
      EncodeLength(init);
      if forall i :: 0 <= i < |s| ==> s[i] as int < 0x1_0000 {
        assert forall i :: 0 <= i < |init| ==> init[i] == s[i];
      }
    }
  }

  /** `text.substring(a, b)` on code units, with the clamping and swapping
      of `Substring`. It is a separate function because `Substring` is kept
      to strings: a generic one made the Twitch proofs over it far costlier
      for the solver. */
  function UnitSubstring(u: seq<int>, a: nat, b: nat): (r: seq<int>)
    ensures a <= b <= |u| ==> r == u[a..b]
  {
    var lo, hi := Min(a, |u|), Min(b, |u|);
    if lo <= hi then u[lo..hi] else u[hi..lo]
  }

  /** The name `parseTwitchEmotes` gives a range as written:
      `text.substring(start, end + 1)` over code units. */
  function AsWrittenName(text: string, r: TwitchEmotes.Range): seq<int> {
    UnitSubstring(Encode(text), r.start, r.end + 1)
  }

  /** The message `"😀ab"` with the tag `{"1": ["1-1"]}`, which names the
      character `a`: as written, the name is the low surrogate of the emoji,
      while the name the model gives, the character the range covers, is
      `a`. */
  lemma SurrogateSplit()
    ensures var text := "\U{1F600}ab";
      var r := TwitchEmotes.Range(1, 1);
      && |text| == 3 && |Encode(text)| == 4
      && AsWrittenName(text, r) == [0xDE00]
      && TwitchEmotes.PositionOf(text, "1", r).name == "a"
      && Encode(TwitchEmotes.PositionOf(text, "1", r).name) == [0x61]
  {
    var text := "\U{1F600}ab";
    assert text[..2] == "\U{1F600}a" && text[..2][..1] == "\U{1F600}";
    assert "\U{1F600}a"[..1] == "\U{1F600}";
    assert Encode("\U{1F600}") == [0xD83D, 0xDE00] by {
      assert "\U{1F600}"[..0] == [];
    }
    assert Encode("a") == [0x61] by {
      assert "a"[..0] == [];
    }
  }
}
