/** The inline Kick emote marker `[emote:<digits>:<name>]`, matched by the
    global regular expression `/\[emote:(\d+):([^\]]+)\]/g`. The name is a
    run of characters other than `]`, so the expression never backtracks
    usefully: at a given offset it matches exactly when the text continues
    with `[emote:`, the maximal run of digits (at least one), `:`, the
    maximal run of non-`]` characters (at least one) and `]`. */
module EmoteMarker {
  import opened JsText

  const Opening := "[emote:"

  /** One match: where it starts and its two captured groups. */
  datatype Marker = Marker(index: nat, id: string, name: string) {
    /** `match[0].length` */
    function Length(): nat {
      |Opening| + |id| + 1 + |name| + 1
    }

    function End(): nat {
      index + Length()
    }

    /** The text the whole match covers. */
    function Markup(): string {
      Opening + id + ":" + name + "]"
    }
  }

  /** The `{id, name}` record the Kick connector collects per marker. */
  datatype EmoteRef = EmoteRef(id: string, name: string)

  predicate ValidName(name: string) {
    |name| > 0 && ']' !in name
  }

  /** The declarative reading of the expression: at offset `i` the text
      continues with `[emote:`, the non-empty digit string `id`, `:`, the
      valid name `name` and `]`. */
  predicate IsMarkerAt(text: string, i: nat, id: string, name: string) {
    var k := i + |Opening|;
    var c := k + |id| + 1;
    && |id| > 0 && AllDigits(id) && ValidName(name)
    && c + |name| < |text|
    && text[i..k] == Opening
    && text[k..k + |id|] == id
    && text[k + |id|] == ':'
    && text[c..c + |name|] == name
    && text[c + |name|] == ']'
  }

  /** A match found in `text`: it lies within the text, covers exactly its
      own markup, its id is digits and its name is valid. */
  predicate WellFormedMatch(text: string, m: Marker) {
    && m.End() <= |text|
    && text[m.index..m.End()] == m.Markup()
    && |m.id| > 0 && AllDigits(m.id) && ValidName(m.name)
  }

  /** Length of the run of digits starting at `k` (`\d+` is greedy). */
  function DigitRun(text: string, k: nat): (n: nat)
    ensures k + n <= |text| || (k > |text| && n == 0)
    ensures forall j :: k <= j < k + n ==> IsDigit(text[j])
    ensures k + n < |text| ==> !IsDigit(text[k + n])
    decreases |text| - k
  {
    if k < |text| && IsDigit(text[k]) then 1 + DigitRun(text, k + 1) else 0
  }

  /** Length of the run of characters other than `]` starting at `k`. */
  function NameRun(text: string, k: nat): (n: nat)
    ensures k + n <= |text| || (k > |text| && n == 0)
    ensures forall j :: k <= j < k + n ==> text[j] != ']'
    ensures k + n < |text| ==> text[k + n] == ']'
    decreases |text| - k
  {
    if k < |text| && text[k] != ']' then 1 + NameRun(text, k + 1) else 0
  }

  /** The match of the expression anchored at offset `i`, if any. */
  function MatchAt(text: string, i: nat): Option<Marker> {
    if i + |Opening| <= |text| && text[i..i + |Opening|] == Opening then
      var d := DigitRun(text, i + |Opening|);
      var colon := i + |Opening| + d;
      if d > 0 && colon < |text| && text[colon] == ':' then
        var n := NameRun(text, colon + 1);
        var close := colon + 1 + n;
        if n > 0 && close < |text| && text[close] == ']' then
          Some(Marker(i, text[i + |Opening|..colon], text[colon + 1..close]))
        else None
      else None
    else None
  }

  /** Every match is a marker in the declarative sense, and covers exactly
      its own markup. */
  lemma MatchAtSound(text: string, i: nat)
    requires MatchAt(text, i).Some?
    ensures var m := MatchAt(text, i).value;
      m.index == i && IsMarkerAt(text, i, m.id, m.name) && WellFormedMatch(text, m)
  {
    var m := MatchAt(text, i).value;
    var k := i + |Opening|;
    var c := k + |m.id| + 1;
    var e := c + |m.name| + 1;
    assert text[k..c - 1] == m.id && text[c..e - 1] == m.name;
    JoinSlices(text, i, k, c, e);
  }

  /** A marker's text is its five pieces side by side. */
  lemma JoinSlices(text: string, i: nat, k: nat, c: nat, e: nat)
    requires i <= k < c < e <= |text|
    ensures text[i..e] == text[i..k] + text[k..c - 1] + [text[c - 1]] + text[c..e - 1] + [text[e - 1]]
  {
  }

  /** Conversely, wherever a marker stands, the expression matches it and
      captures exactly its id and name: the match is unique. */
  lemma MatchAtComplete(text: string, i: nat, id: string, name: string)
    requires IsMarkerAt(text, i, id, name)
    ensures MatchAt(text, i) == Some(Marker(i, id, name))
  {
    var k := i + |Opening|;
    var c := k + |id| + 1;
    forall j | k <= j < k + |id| ensures IsDigit(text[j]) {
      assert text[j] == text[k..k + |id|][j - k];
    }
    DigitRunExact(text, k, |id|);
    forall j | c <= j < c + |name| ensures text[j] != ']' {
      assert text[j] == text[c..c + |name|][j - c];
    }
    NameRunExact(text, c, |name|);
  }

  lemma {:induction false} DigitRunExact(text: string, k: nat, n: nat)
    requires k + n < |text|
    requires forall j :: k <= j < k + n ==> IsDigit(text[j])
    requires !IsDigit(text[k + n])
    ensures DigitRun(text, k) == n
    decreases n
  {
    if n > 0 {
      DigitRunExact(text, k + 1, n - 1);
    }
  }

  lemma {:induction false} NameRunExact(text: string, k: nat, n: nat)
    requires k + n < |text|
    requires forall j :: k <= j < k + n ==> text[j] != ']'
    requires text[k + n] == ']'
    ensures NameRun(text, k) == n
    decreases n
  {
    if n > 0 {
      NameRunExact(text, k + 1, n - 1);
    }
  }

  /** `emoteRegex.exec(text)` with `lastIndex == from`: the leftmost match
      starting at or after `from`. */
  function FindMarker(text: string, from: nat): (r: Option<Marker>)
    ensures r.Some? ==> from <= r.value.index && MatchAt(text, r.value.index) == r
    ensures r.Some? ==> forall j :: from <= j < r.value.index ==> MatchAt(text, j).None?
    ensures r.None? ==> forall j :: from <= j <= |text| ==> MatchAt(text, j).None?
    decreases |text| - from
  {
    if from > |text| then None
    else if MatchAt(text, from).Some? then MatchAt(text, from)
    else FindMarker(text, from + 1)
  }

  /** Every match `FindMarker` returns is well formed and lies after `from`. */
  lemma FindMarkerBounds(text: string, from: nat)
    requires FindMarker(text, from).Some?
    ensures var m := FindMarker(text, from).value;
      from <= m.index < m.End() && WellFormedMatch(text, m)
  {
    MatchAtSound(text, FindMarker(text, from).value.index);
  }

  /** The successive matches of the global expression from `from`: each
      search resumes where the previous match ended. */
  function Markers(text: string, from: nat): (ms: seq<Marker>)
    ensures forall i :: 0 <= i < |ms| ==> from <= ms[i].index
    decreases |text| - from
  {
    match FindMarker(text, from)
    case None => []
    case Some(m) =>
      FindMarkerBounds(text, from);
      [m] + Markers(text, m.End())
  }

  function ToRef(m: Marker): EmoteRef {
    EmoteRef(m.id, m.name)
  }

  /** The `{id, name}` records of the matches from `from`, in order. */
  function MarkerRefs(text: string, from: nat): seq<EmoteRef>
    decreases |text| - from
  {
    match FindMarker(text, from)
    case None => []
    case Some(m) =>
      FindMarkerBounds(text, from);
      [ToRef(m)] + MarkerRefs(text, m.End())
  }

  /** One record per match, each with the match's id and name. */
  lemma {:induction false} MarkerRefsOfMarkers(text: string, from: nat)
    ensures var ms := Markers(text, from);
      var rs := MarkerRefs(text, from);
      |rs| == |ms| && forall i :: 0 <= i < |ms| ==> rs[i] == ToRef(ms[i])
    decreases |text| - from
  {
    match FindMarker(text, from)
    case None =>
    case Some(m) =>
      FindMarkerBounds(text, from);
      MarkerRefsOfMarkers(text, m.End());
  }

  /** The records of the matches from `from`: the one found first, then
      those after it. */
  lemma MarkerRefsStep(text: string, from: nat)
    requires FindMarker(text, from).Some?
    ensures var m := FindMarker(text, from).value;
      m.End() > from && MarkerRefs(text, from) == [ToRef(m)] + MarkerRefs(text, m.End())
  {
    FindMarkerBounds(text, from);
  }

  /** Once no match is left, there are no more records. */
  lemma MarkerRefsDone(text: string, from: nat)
    requires FindMarker(text, from).None?
    ensures MarkerRefs(text, from) == []
  {
  }

  /** Every match of the global expression is well formed and lies after
      the offset the search started from. */
  lemma {:induction false} MarkersWellFormed(text: string, from: nat)
    ensures forall m :: m in Markers(text, from) ==> from <= m.index && WellFormedMatch(text, m)
    decreases |text| - from
  {
    var r := FindMarker(text, from);
    if r.Some? {
      var m := r.value;
      FindMarkerBounds(text, from);
      MarkersWellFormed(text, m.End());
      assert Markers(text, from) == [m] + Markers(text, m.End());
    }
  }

  /** The matches are disjoint and left to right: each one ends before any
      later one starts. */
  lemma {:induction false} MarkersOrdered(text: string, from: nat)
    ensures var ms := Markers(text, from);
      forall i, j :: 0 <= i < j < |ms| ==> ms[i].End() <= ms[j].index
    decreases |text| - from
  {
    var ms := Markers(text, from);
    if |ms| > 0 {
      var m := ms[0];
      var rest := ms[1..];
      MarkersTail(text, from);
      MarkersOrdered(text, m.End());
      forall i, j | 0 <= i < j < |ms| ensures ms[i].End() <= ms[j].index {
        assert ms[j] == rest[j - 1];
        if i > 0 {
          assert ms[i] == rest[i - 1];
        }
      }
    }
  }

  /** After the first match, the search resumes at its end. */
  lemma MarkersTail(text: string, from: nat)
    requires |Markers(text, from)| > 0
    ensures var ms := Markers(text, from); ms[1..] == Markers(text, ms[0].End())
  {
  }
}
