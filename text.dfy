/**
 * The string operations the engine relies on: lowercasing, whitespace
 * splitting, substring search, prefixes and line splitting.
 */
module Text {

  import opened Json

  /** `char::to_lowercase` restricted to ASCII letters. */
  function LowerChar(c: char): (r: char)
    ensures 'A' <= c <= 'Z' ==> r as int == c as int + 32
    ensures !('A' <= c <= 'Z') ==> r == c
  {
    if 'A' <= c <= 'Z' then (c as int + 32) as char else c
  }

  /** `str::to_lowercase`. */
  function Lower(s: string): (r: string)
    ensures |r| == |s|
    ensures forall i :: 0 <= i < |s| ==> r[i] == LowerChar(s[i])
  {
    if s == [] then [] else [LowerChar(s[0])] + Lower(s[1..])
  }

  lemma LowerIdempotent(s: string)
    ensures Lower(Lower(s)) == Lower(s)
  {
    assert forall i :: 0 <= i < |s| ==> LowerChar(LowerChar(s[i])) == LowerChar(s[i]);
  }

  lemma LowerAppend(a: string, b: string)
    ensures Lower(a + b) == Lower(a) + Lower(b)
  {
  }

  lemma LowerSlice(s: string, i: nat, j: nat)
    requires i <= j <= |s|
    ensures Lower(s[i..j]) == Lower(s)[i..j]
  {
  }

  /** `char::is_whitespace`: the Unicode White_Space property. */
  predicate IsSpace(c: char)
  {
    var n := c as int;
    (9 <= n <= 13) || n == 32 || n == 0x85 || n == 0xA0 || n == 0x1680
    || (0x2000 <= n <= 0x200A) || n == 0x2028 || n == 0x2029 || n == 0x202F
    || n == 0x205F || n == 0x3000
  }

  /** Number of leading characters of `s` that are not whitespace. */
  function WordLen(s: string): (n: nat)
    ensures n <= |s|
    ensures forall i :: 0 <= i < n ==> !IsSpace(s[i])
    ensures n < |s| ==> IsSpace(s[n])
  {
    if s == [] || IsSpace(s[0]) then 0 else 1 + WordLen(s[1..])
  }

  /** `str::split_whitespace`: the maximal runs of non-whitespace characters. */
  function Words(s: string): (r: seq<string>)
    ensures forall w :: w in r ==> |w| > 0 && forall i :: 0 <= i < |w| ==> !IsSpace(w[i])
    decreases |s|
  {
    if s == [] then []
    else if IsSpace(s[0]) then Words(s[1..])
    else
      var n := WordLen(s);
      [s[..n]] + Words(s[n..])
  }

  /** `needle` occurs in `hay` starting at position `p`. */
  predicate OccursAt(hay: string, needle: string, p: int)
  {
    0 <= p && p + |needle| <= |hay| && hay[p..p + |needle|] == needle
  }

  /** `hay[i..].find(needle)`, as a position in `hay`. */
  function FindFrom(hay: string, needle: string, i: nat): (r: Option<nat>)
    requires i <= |hay|
    ensures r.Some? ==> i <= r.value && OccursAt(hay, needle, r.value)
    ensures r.Some? ==> forall p :: i <= p < r.value ==> !OccursAt(hay, needle, p)
    ensures r.None? ==> forall p :: i <= p ==> !OccursAt(hay, needle, p)
    decreases |hay| - i
  {
    if i + |needle| > |hay| then None
    else if hay[i..i + |needle|] == needle then Some(i)
    else FindFrom(hay, needle, i + 1)
  }

  /** `hay.contains(needle)`. */
  predicate Contains(hay: string, needle: string)
  {
    FindFrom(hay, needle, 0).Some?
  }

  lemma ContainsAt(hay: string, needle: string, p: int)
    requires OccursAt(hay, needle, p)
    ensures Contains(hay, needle)
  {
  }

  lemma ContainsSelf(s: string)
    ensures Contains(s, s)
  {
    assert OccursAt(s, s, 0);
  }

  /** `s.starts_with(p)`. */
  predicate StartsWith(s: string, p: string)
  {
    |p| <= |s| && s[..|p|] == p
  }

  // ---------------------------------------------------------------------------
  // str::lines
  // ---------------------------------------------------------------------------

  /** Length of the leading segment of `s` that holds no '\n'. */
  function LineLen(s: string): (n: nat)
    ensures n <= |s|
    ensures forall i :: 0 <= i < n ==> s[i] != '\n'
    ensures n < |s| ==> s[n] == '\n'
  {
    if s == [] || s[0] == '\n' then 0 else 1 + LineLen(s[1..])
  }

  /** A line without its terminating "\r", as `lines()` yields it. */
  function StripCr(line: string): string
  {
    if |line| > 0 && line[|line| - 1] == '\r' then line[..|line| - 1] else line
  }

  /**
   * `str::lines`: pieces separated by '\n'; a piece ended by "\r\n" loses
   * its '\r', while a last piece with no '\n' after it keeps a trailing
   * '\r'. A final '\n' does not start an empty last line.
   */
  function Lines(s: string): (r: seq<string>)
    ensures forall l :: l in r ==> '\n' !in l
    ensures |r| <= |s|
    decreases |s|
  {
    if s == [] then []
    else
      var n := LineLen(s);
      var line := if n == |s| then s[..n] else StripCr(s[..n]);
      assert forall i :: 0 <= i < |line| ==> line[i] == s[i];
      if n == |s| then [line] else [line] + Lines(s[n + 1..])
  }

  /** Without a '\n' the whole text is the first line. */
  lemma {:induction false} LineLenWhole(s: string)
    requires '\n' !in s
    ensures LineLen(s) == |s|
  {
    if s != [] {
      assert s[0] in s;
      assert forall c :: c in s[1..] ==> c in s;
      LineLenWhole(s[1..]);
    }
  }

  /** A last line with no '\n' after it comes back whole, a trailing '\r' included. */
  lemma LastLineKeepsCr(s: string)
    requires s != [] && '\n' !in s
    ensures Lines(s) == [s]
  {
    LineLenWhole(s);
    assert s[..|s|] == s;
  }

  /** A line ended by "\r\n" comes back without the '\r'; the lines after it follow. */
  lemma CrLfEndsLine(s: string, rest: string)
    requires '\n' !in s
    ensures Lines(s + "\r\n" + rest) == [s] + Lines(rest)
  {
    var t := s + "\r\n" + rest;
    assert forall i :: 0 <= i < |s| ==> t[i] == s[i] && s[i] in s;
    assert t[|s|] == '\r' && t[|s| + 1] == '\n';
    assert LineLen(t) == |s| + 1;
    assert t[..|s| + 1] == s + "\r";
    assert t[|s| + 2..] == rest;
  }

  /** `s.trim().is_empty()`. */
  predicate IsBlank(s: string)
  {
    forall i :: 0 <= i < |s| ==> IsSpace(s[i])
  }

  /** Decimal rendering of a natural number. */
  function NatText(n: nat): (r: string)
    ensures |r| > 0 && AllDigits(r)
  {
    if n < 10 then [('0' as int + n) as char]
    else NatText(n / 10) + [('0' as int + n % 10) as char]
  }

  // ---------------------------------------------------------------------------
  // str::parse::<u16> / str::parse::<u32>
  // ---------------------------------------------------------------------------

  function DigitValue(c: char): nat
    requires IsDigit(c)
  {
    c as int - '0' as int
  }

  /** The value of a string of decimal digits, most significant first. */
  function DigitsValue(s: string): nat
    requires AllDigits(s)
  {
    if s == [] then 0 else DigitsValue(s[..|s| - 1]) * 10 + DigitValue(s[|s| - 1])
  }

  /**
   * `s.parse::<uN>()` with `max` the largest value of the type: one optional
   * leading '+', at least one digit, nothing else, and no overflow.
   */
  function ParseUnsigned(s: string, max: nat): (r: Option<nat>)
    ensures r.Some? ==> r.value <= max
    ensures s == [] ==> r.None?
  {
    var digits := if |s| > 0 && s[0] == '+' then s[1..] else s;
    if digits == [] || !AllDigits(digits) then None
    else if DigitsValue(digits) > max then None
    else Some(DigitsValue(digits))
  }

  lemma {:induction false} DigitsValueOfNatText(n: nat)
    ensures DigitsValue(NatText(n)) == n
  {
    if n >= 10 {
      DigitsValueOfNatText(n / 10);
      var t := NatText(n);
      assert t[..|t| - 1] == NatText(n / 10);
    }
  }

  /** Parsing the decimal rendering of an in-range number gives the number back. */
  lemma ParseUnsignedNatText(n: nat, max: nat)
    requires n <= max
    ensures ParseUnsigned(NatText(n), max) == Some(n)
  {
    DigitsValueOfNatText(n);
    assert IsDigit(NatText(n)[0]);
  }

  /** A leading '+' is accepted and changes nothing. */
  lemma ParseUnsignedPlus(s: string, max: nat)
    requires |s| > 0 && s[0] != '+'
    ensures ParseUnsigned("+" + s, max) == ParseUnsigned(s, max)
  {
    assert ("+" + s)[1..] == s;
  }
}
