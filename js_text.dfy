/** The JavaScript string and value operations the chat code relies on,
    written out so that their edge cases are explicit. */
module JsText {

  /** A value that may be `undefined` or `null`. */
  datatype Option<+T> = None | Some(value: T)

  /** JavaScript truthiness of a string that may be absent: `undefined`,
      `null` and `""` are falsy. */
  predicate Truthy(s: Option<string>) {
    s.Some? && s.value != ""
  }

  /** `s || fallback` for a string that may be absent. */
  function OrElse(s: Option<string>, fallback: string): string {
    if Truthy(s) then s.value else fallback
  }

  /** `b || false` for a boolean that may be absent. */
  function FlagOrFalse(b: Option<bool>): bool {
    b == Some(true)
  }

  predicate IsDigit(c: char) {
    '0' <= c <= '9'
  }

  predicate AllDigits(s: string) {
    forall i :: 0 <= i < |s| ==> IsDigit(s[i])
  }

  /** `String.prototype.includes`, as a recursive search. */
  predicate Contains(s: string, sub: string)
    decreases |s|
  {
    |sub| <= |s| && (s[..|sub|] == sub || (|s| > 0 && Contains(s[1..], sub)))
  }

  /** `sub` occurs in `s` at offset `i`. */
  predicate OccursAt(s: string, sub: string, i: int) {
    0 <= i <= |s| - |sub| && s[i..i + |sub|] == sub
  }

  /** `Contains` finds exactly the offsets at which `sub` occurs. */
  lemma {:induction false} ContainsIffOccurs(s: string, sub: string)
    ensures Contains(s, sub) <==> exists i :: OccursAt(s, sub, i)
    decreases |s|
  {
    if |sub| <= |s| && s[..|sub|] == sub {
      assert OccursAt(s, sub, 0);
    } else if |sub| <= |s| && |s| > 0 {
      ContainsIffOccurs(s[1..], sub);
      if Contains(s[1..], sub) {
        var i :| OccursAt(s[1..], sub, i);
        assert s[1..][i..i + |sub|] == s[i + 1..i + 1 + |sub|];
        assert OccursAt(s, sub, i + 1);
      }
      if exists i :: OccursAt(s, sub, i) {
        var i :| OccursAt(s, sub, i);
        assert i != 0;
        assert s[1..][i - 1..i - 1 + |sub|] == s[i..i + |sub|];
        assert OccursAt(s[1..], sub, i - 1);
      }
    }
  }

  /** `toLowerCase` on the ASCII letters. */
  function LowerChar(c: char): char {
    if 'A' <= c <= 'Z' then (c as int + 32) as char else c
  }

  function Lower(s: string): (r: string)
    ensures |r| == |s|
    ensures forall i :: 0 <= i < |s| ==> r[i] == LowerChar(s[i])
  {
    seq(|s|, i requires 0 <= i < |s| => LowerChar(s[i]))
  }

  function Min(a: int, b: int): int {
    if a <= b then a else b
  }

  /** `s.substring(a, b)`: both ends are clamped to the length and swapped
      when the first is larger. */
  function Substring(s: string, a: nat, b: nat): (r: string)
    ensures a <= b <= |s| ==> r == s[a..b]
  {
    var lo, hi := Min(a, |s|), Min(b, |s|);
    if lo <= hi then s[lo..hi] else s[hi..lo]
  }

  /** `s.substring(a)`. */
  function SubstringFrom(s: string, a: nat): (r: string)
    ensures a <= |s| ==> r == s[a..]
  {
    s[Min(a, |s|)..]
  }

  /** The first offset at or after `from` where `pat` occurs. */
  function IndexOf(s: string, pat: string, from: nat): (r: Option<nat>)
    ensures r.Some? ==> from <= r.value && r.value + |pat| <= |s| && s[r.value..r.value + |pat|] == pat
    decreases |s| - from
  {
    if from + |pat| > |s| then None
    else if s[from..from + |pat|] == pat then Some(from)
    else IndexOf(s, pat, from + 1)
  }

  /** The text `s.replace(pat, rep)` inserts for a string pattern: in the
      replacement, `$$` stands for `$`, `$&` for the matched text, `` $` ``
      for the text before the match and `$'` for the text after it; any
      other `$` stands for itself, since a string pattern has no groups. */
  function ExpandReplacement(rep: string, matched: string, before: string, after: string): string
    decreases |rep|
  {
    if rep == [] then []
    else if rep[0] == '$' && |rep| >= 2 && rep[1] in "$&`'" then
      var piece := if rep[1] == '$' then "$" else if rep[1] == '&' then matched else if rep[1] == '`' then before else after;
      piece + ExpandReplacement(rep[2..], matched, before, after)
    else [rep[0]] + ExpandReplacement(rep[1..], matched, before, after)
  }

  /** A replacement without `$` is inserted as it is. */
  lemma {:induction false} ExpandPlain(rep: string, matched: string, before: string, after: string)
    requires '$' !in rep
    ensures ExpandReplacement(rep, matched, before, after) == rep
    decreases |rep|
  {
    if rep != [] {
      assert '$' !in rep[1..];
      ExpandPlain(rep[1..], matched, before, after);
    }
  }

  /** `s.replace(pat, rep)` with a string pattern: only the first occurrence
      is replaced, by the expanded replacement. */
  function ReplaceFirst(s: string, pat: string, rep: string): string {
    match IndexOf(s, pat, 0)
    case None => s
    case Some(i) => s[..i] + ExpandReplacement(rep, pat, s[..i], s[i + |pat|..]) + s[i + |pat|..]
  }

  /** A template `prefix + pat + suffix` whose prefix cannot start an
      occurrence of `pat` has the expanded `rep` in place of `pat` after
      `ReplaceFirst`. */
  lemma {:induction false} ReplaceInTemplate(prefix: string, pat: string, suffix: string, rep: string)
    requires |pat| > 0 && pat[0] !in prefix
    ensures ReplaceFirst(prefix + pat + suffix, pat, rep) == prefix + ExpandReplacement(rep, pat, prefix, suffix) + suffix
  {
    var s := prefix + pat + suffix;
    FirstOccurrence(s, pat, 0, |prefix|);
    assert s[..|prefix|] == prefix;
    assert s[|prefix| + |pat|..] == suffix;
  }

  /** The `{id}` placeholder of a URL template. */
  const Placeholder := "{id}"

  /** What `(prefix + '{id}' + suffix).replace('{id}', id)` gives. */
  function FillTemplate(prefix: string, suffix: string, id: string): string {
    prefix + ExpandReplacement(id, Placeholder, prefix, suffix) + suffix
  }

  /** Filling a template whose prefix holds no `{` replaces its placeholder,
      and an id without `$` lands in it verbatim. */
  lemma TemplateFilled(prefix: string, suffix: string, id: string)
    requires '{' !in prefix
    ensures ReplaceFirst(prefix + Placeholder + suffix, Placeholder, id) == FillTemplate(prefix, suffix, id)
    ensures '$' !in id ==> FillTemplate(prefix, suffix, id) == prefix + id + suffix
  {
    ReplaceInTemplate(prefix, Placeholder, suffix, id);
    if '$' !in id {
      ExpandPlain(id, Placeholder, prefix, suffix);
    }
  }

  lemma {:induction false} FirstOccurrence(s: string, pat: string, from: nat, k: nat)
    requires |pat| > 0 && from <= k && k + |pat| <= |s| && s[k..k + |pat|] == pat
    requires forall j :: from <= j < k ==> s[j] != pat[0]
    ensures IndexOf(s, pat, from) == Some(k)
    decreases k - from
  {
    if from < k {
      assert s[from..from + |pat|][0] == s[from];
      FirstOccurrence(s, pat, from + 1, k);
    }
  }

  /** A suffix is its first two pieces followed by the rest. */
  lemma SplitSuffix(s: string, i: nat, j: nat, k: nat)
    requires i <= j <= k <= |s|
    ensures s[i..] == s[i..j] + s[j..k] + s[k..]
  {
  }

  function DigitChar(d: nat): char
    requires d < 10
  {
    ('0' as int + d) as char
  }

  /** `String(n)` for a natural number: its decimal digits. */
  function Decimal(n: nat): (s: string)
    ensures |s| > 0 && AllDigits(s)
  {
    if n < 10 then [DigitChar(n)] else Decimal(n / 10) + [DigitChar(n % 10)]
  }

  function DecimalValue(s: string): nat
    requires AllDigits(s)
  {
    if s == [] then 0 else 10 * DecimalValue(s[..|s| - 1]) + (s[|s| - 1] as int - '0' as int)
  }

  /** Reading back the decimal rendering gives the number. */
  lemma {:induction false} DecimalRoundTrip(n: nat)
    ensures DecimalValue(Decimal(n)) == n
  {
    var s := Decimal(n);
    if n >= 10 {
      DecimalRoundTrip(n / 10);
      assert s[..|s| - 1] == Decimal(n / 10);
    }
  }

  predicate IsLowerHex(c: char) {
    '0' <= c <= '9' || 'a' <= c <= 'f'
  }

  function HexChar(d: nat): (c: char)
    requires d < 16
    ensures IsLowerHex(c)
  {
    if d < 10 then ('0' as int + d) as char else ('a' as int + d - 10) as char
  }

  function HexCharValue(c: char): nat
    requires IsLowerHex(c)
  {
    if c <= '9' then c as int - '0' as int else c as int - 'a' as int + 10
  }

  /** `n.toString(16)`: lower-case hexadecimal digits without leading zeros. */
  function Hex(n: nat): (s: string)
    ensures |s| > 0 && forall i :: 0 <= i < |s| ==> IsLowerHex(s[i])
  {
    if n < 16 then [HexChar(n)] else Hex(n / 16) + [HexChar(n % 16)]
  }

  function HexValue(s: string): nat
    requires forall i :: 0 <= i < |s| ==> IsLowerHex(s[i])
  {
    if s == [] then 0 else 16 * HexValue(s[..|s| - 1]) + HexCharValue(s[|s| - 1])
  }

  /** A number below 16^k needs at most k hexadecimal digits, and reading
      the digits back gives the number. */
  lemma {:induction false} HexRoundTrip(n: nat, k: nat)
    requires 0 < k && n < Pow16(k)
    ensures |Hex(n)| <= k
    ensures HexValue(Hex(n)) == n
  {
    var s := Hex(n);
    if n >= 16 {
      assert k > 1;
      assert n / 16 < Pow16(k - 1);
      HexRoundTrip(n / 16, k - 1);
      assert s[..|s| - 1] == Hex(n / 16);
    }
  }

  function Pow16(k: nat): nat {
    if k == 0 then 1 else 16 * Pow16(k - 1)
  }

  function Repeat(c: char, k: nat): (r: string)
    ensures |r| == k && forall i :: 0 <= i < k ==> r[i] == c
  {
    if k == 0 then [] else [c] + Repeat(c, k - 1)
  }

  /** `s.padStart(width, c)`. */
  function PadStart(s: string, width: nat, c: char): string {
    if |s| >= width then s else Repeat(c, width - |s|) + s
  }

  /** Leading zeros do not change the value of a hexadecimal string. */
  lemma {:induction false} HexValueLeadingZeros(k: nat, s: string)
    requires forall i :: 0 <= i < |s| ==> IsLowerHex(s[i])
    ensures HexValue(Repeat('0', k) + s) == HexValue(s)
    decreases |s|
  {
    var z := Repeat('0', k) + s;
    if s == [] {
      ZerosValue(k);
      assert z == Repeat('0', k);
    } else {
      HexValueLeadingZeros(k, s[..|s| - 1]);
      assert z[..|z| - 1] == Repeat('0', k) + s[..|s| - 1];
    }
  }

  lemma {:induction false} ZerosValue(k: nat)
    ensures HexValue(Repeat('0', k)) == 0
  {
    if k > 0 {
      var z := Repeat('0', k);
      ZerosValue(k - 1);
      assert z[..k - 1] == Repeat('0', k - 1);
    }
  }
}
