/**
 * The few JavaScript string operations the core relies on, with the semantics the ECMAScript
 * standard gives them: `indexOf`, `replace` with a string pattern (including the `$` patterns of
 * its replacement text), `startsWith`, and the text of an integral Number.
 */
module JsString {
  import opened Wrappers

  /** `key` occurs in `s` at index `i`. */
  predicate OccursAt(s: string, key: string, i: int) {
    0 <= i && i + |key| <= |s| && s[i..i + |key|] == key
  }

  /** `s.indexOf(key, from)`: the first index at or after `from` where `key` occurs. */
  function IndexOfFrom(s: string, key: string, from: nat): (r: Option<nat>)
    ensures r.Some? ==> from <= r.value && OccursAt(s, key, r.value)
    ensures forall j :: from <= j && (r.None? || j < r.value) ==> !OccursAt(s, key, j)
    decreases |s| - from
  {
    if from + |key| > |s| then None
    else if s[from..from + |key|] == key then Some(from)
    else IndexOfFrom(s, key, from + 1)
  }

  /** `s.indexOf(key)`; the empty key occurs at index 0 of every string. */
  function IndexOf(s: string, key: string): (r: Option<nat>)
    ensures r.Some? ==> OccursAt(s, key, r.value)
    ensures r.Some? ==> forall j :: 0 <= j < r.value ==> !OccursAt(s, key, j)
    ensures r.None? ==> forall j :: !OccursAt(s, key, j)
  {
    IndexOfFrom(s, key, 0)
  }

  /** The first occurrence of `key` in `s` is at `i`. */
  predicate FirstOccurrence(s: string, key: string, i: int) {
    OccursAt(s, key, i) && forall j :: 0 <= j < i ==> !OccursAt(s, key, j)
  }

  /** `IndexOf` finds exactly the first occurrence, and nothing when there is none. */
  lemma IndexOfIsFirst(s: string, key: string, i: int)
    ensures IndexOf(s, key) == Some(i) <==> FirstOccurrence(s, key, i)
  {
  }

  /**
   * The text `String.prototype.replace` inserts for a replacement `template` when the pattern is a
   * string (ECMAScript GetSubstitution with no capture groups): `$$` gives `$`, `$&` the matched
   * text, `$`+backquote the text before the match, `$'` the text after it; every other character,
   * a `$` that starts no such pair included, stands for itself.
   */
  function Substitution(template: string, matched: string, before: string, after: string): (r: string)
    ensures '$' !in template ==> r == template
    decreases |template|
  {
    if template == [] then []
    else if |template| >= 2 && template[0] == '$' && template[1] == '$' then
      "$" + Substitution(template[2..], matched, before, after)
    else if |template| >= 2 && template[0] == '$' && template[1] == '&' then
      matched + Substitution(template[2..], matched, before, after)
    else if |template| >= 2 && template[0] == '$' && template[1] == '`' then
      before + Substitution(template[2..], matched, before, after)
    else if |template| >= 2 && template[0] == '$' && template[1] == '\'' then
      after + Substitution(template[2..], matched, before, after)
    else
      [template[0]] + Substitution(template[1..], matched, before, after)
  }

  /** `s.replace(key, replacement)` with a string `key`: only the first occurrence is replaced. */
  function Replace(s: string, key: string, replacement: string): (r: string)
    ensures (forall j :: !OccursAt(s, key, j)) ==> r == s
  {
    match IndexOf(s, key)
    case None => s
    case Some(i) =>
      s[..i] + Substitution(replacement, key, s[..i], s[i + |key|..]) + s[i + |key|..]
  }

  /** What `Replace` does when `key` first occurs at `i`: the text around that occurrence is kept
      and the occurrence gives way to the expanded replacement; without `$` in it, to the replacement itself. */
  lemma ReplaceFirstOccurrence(s: string, key: string, replacement: string, i: int)
    requires FirstOccurrence(s, key, i)
    ensures Replace(s, key, replacement)
      == s[..i] + Substitution(replacement, key, s[..i], s[i + |key|..]) + s[i + |key|..]
    ensures '$' !in replacement ==> Replace(s, key, replacement) == s[..i] + replacement + s[i + |key|..]
  {
    IndexOfIsFirst(s, key, i);
  }

  /** `s.startsWith(prefix)` */
  predicate StartsWith(s: string, prefix: string) {
    |prefix| <= |s| && s[..|prefix|] == prefix
  }

  lemma ConcatStartsWith(prefix: string, rest: string)
    ensures StartsWith(prefix + rest, prefix)
  {
    assert (prefix + rest)[..|prefix|] == prefix;
  }

  predicate IsDigit(c: char) {
    '0' <= c <= '9'
  }

  function DigitChar(d: nat): (c: char)
    requires d < 10
    ensures IsDigit(c)
  {
    (('0' as int) + d) as char
  }

  function DigitValue(c: char): (d: nat)
    requires IsDigit(c)
    ensures d < 10
  {
    (c as int) - ('0' as int)
  }

  /** The decimal digits of `n`, without leading zeros. */
  function NatText(n: nat): (r: string)
    ensures |r| >= 1 && forall k :: 0 <= k < |r| ==> IsDigit(r[k])
    ensures r[0] == '0' ==> n == 0
    decreases n
  {
    if n < 10 then [DigitChar(n)] else NatText(n / 10) + [DigitChar(n % 10)]
  }

  /** `String(n)` for an integral Number `n` whose magnitude is below 10^21 (written out in decimal). */
  function IntText(n: int): (r: string)
  {
    if n < 0 then "-" + NatText(-n) else NatText(n)
  }

  /** The value of a string of decimal digits. */
  function DigitsValue(s: string): nat
    requires forall k :: 0 <= k < |s| ==> IsDigit(s[k])
    decreases |s|
  {
    if s == [] then 0 else DigitsValue(s[..|s| - 1]) * 10 + DigitValue(s[|s| - 1])
  }

  /** `parseInt(s, 10)` on the strings `IntText` produces. */
  function ParseIntText(s: string): int
    requires |s| >= 1
    requires forall k :: 0 < k < |s| ==> IsDigit(s[k])
    requires s[0] == '-' || IsDigit(s[0])
  {
    if s[0] == '-' then 0 - DigitsValue(s[1..]) as int else DigitsValue(s)
  }

  lemma {:induction false} NatTextRoundTrip(n: nat)
    ensures DigitsValue(NatText(n)) == n
    decreases n
  {
    if n >= 10 {
      NatTextRoundTrip(n / 10);
      var s := NatText(n);
      assert s[..|s| - 1] == NatText(n / 10);
    }
  }

  /** The text of a Number reads back as that Number: `IntText` loses nothing. */
  lemma IntTextRoundTrip(n: int)
    ensures |IntText(n)| >= 1
    ensures forall k :: 0 < k < |IntText(n)| ==> IsDigit(IntText(n)[k])
    ensures IntText(n)[0] == '-' <==> n < 0
    ensures ParseIntText(IntText(n)) == n
  {
    if n < 0 {
      NatTextRoundTrip(-n);
      assert IntText(n)[1..] == NatText(-n);
    } else {
      NatTextRoundTrip(n);
    }
  }
}
