/**
  The Python string operations the bot relies on, on `seq<char>`:
  `s.split()[-1]`, `sub in s`, `str(n)` for a natural number, `int(s)` in base 10,
  and `url.split('/')[-1]`.
 */
module Strings {
  import opened Wrappers

  /** The characters Python's `str.split()` treats as whitespace. */
  predicate IsSpace(c: char) {
    || c == ' '
    || ('\t' <= c <= '\r')
    || ('\U{1c}' <= c <= '\U{1f}')
    || c == '\U{85}'
    || c == '\U{a0}'
    || c == '\U{1680}'
    || ('\U{2000}' <= c <= '\U{200a}')
    || c == '\U{2028}'
    || c == '\U{2029}'
    || c == '\U{202f}'
    || c == '\U{205f}'
    || c == '\U{3000}'
  }

  /**
    The whitespace `int()` ignores around a number: the same set without the ASCII
    separators U+001C..U+001F, which `int()` keeps and then rejects.
   */
  predicate IsIntSpace(c: char) {
    IsSpace(c) && !('\U{1c}' <= c <= '\U{1f}')
  }

  /** What `int()` ignores is whitespace for `split()` too; the two sets differ in the four separators only. */
  lemma IntSpaceWithinSpace(c: char)
    ensures IsIntSpace(c) ==> IsSpace(c)
    ensures IsSpace(c) && !IsIntSpace(c) <==> '\U{1c}' <= c <= '\U{1f}'
  {
  }

  predicate IsDigit(c: char) {
    '0' <= c <= '9'
  }

  // ---------------------------------------------------------------------------
  // s.split()[-1]
  // ---------------------------------------------------------------------------

  /** The length of s once its trailing whitespace is cut off. */
  function TrimmedEnd(s: string): (n: nat)
    ensures n <= |s|
    ensures forall i :: n <= i < |s| ==> IsSpace(s[i])
    ensures n > 0 ==> !IsSpace(s[n - 1])
  {
    if |s| == 0 || !IsSpace(s[|s| - 1]) then |s| else TrimmedEnd(s[..|s| - 1])
  }

  /** Where the run of non-whitespace characters ending just before position end begins. */
  function WordStart(s: string, end: nat): (j: nat)
    requires end <= |s|
    ensures j <= end
    ensures forall i :: j <= i < end ==> !IsSpace(s[i])
    ensures j > 0 ==> IsSpace(s[j - 1])
    decreases end
  {
    if end == 0 || IsSpace(s[end - 1]) then end else WordStart(s, end - 1)
  }

  /**
    s[j..k] is the last whitespace-separated word of s: it is non-empty, holds no
    whitespace, is preceded by whitespace or the start of s, and only whitespace follows it.
   */
  ghost predicate LastWordAt(s: string, j: nat, k: nat) {
    && j < k <= |s|
    && (forall i :: j <= i < k ==> !IsSpace(s[i]))
    && (j == 0 || IsSpace(s[j - 1]))
    && (forall i :: k <= i < |s| ==> IsSpace(s[i]))
  }

  /**
    `s.split()[-1]`: the last whitespace-separated word of s, or None when s holds
    nothing but whitespace (the list is then empty and Python raises IndexError).
   */
  function LastWord(s: string): Option<string> {
    var k := TrimmedEnd(s);
    if k == 0 then None else Some(s[WordStart(s, k)..k])
  }

  /** What LastWord means: None exactly for all-whitespace text, otherwise the word at the one LastWordAt position. */
  lemma LastWordMeaning(s: string)
    ensures LastWord(s).None? <==> forall i :: 0 <= i < |s| ==> IsSpace(s[i])
    ensures LastWord(s).Some? ==> exists j: nat, k: nat :: LastWordAt(s, j, k) && LastWord(s).value == s[j..k]
  {
  }

  /** The position of the last word is determined by s, so LastWord is the only answer. */
  lemma LastWordUnique(s: string, j: nat, k: nat, j': nat, k': nat)
    requires LastWordAt(s, j, k) && LastWordAt(s, j', k')
    ensures j == j' && k == k'
  {
    assert !IsSpace(s[k - 1]) && !IsSpace(s[k' - 1]);
    assert j > 0 ==> IsSpace(s[j - 1]);
    assert j' > 0 ==> IsSpace(s[j' - 1]);
  }

  // ---------------------------------------------------------------------------
  // sub in s
  // ---------------------------------------------------------------------------

  /** sub occurs in s starting at position i. */
  predicate OccursAt(s: string, sub: string, i: nat) {
    i + |sub| <= |s| && s[i..i + |sub|] == sub
  }

  /** sub occurs in s at position i or later. */
  function OccursFrom(s: string, sub: string, i: nat): (b: bool)
    requires i <= |s|
    ensures b <==> exists j: nat :: i <= j && OccursAt(s, sub, j)
    decreases |s| - i
  {
    if i + |sub| > |s| then false
    else if s[i..i + |sub|] == sub then assert OccursAt(s, sub, i); true
    else OccursFrom(s, sub, i + 1)
  }

  /** Python's `sub in s` for strings. */
  function Contains(s: string, sub: string): (b: bool)
    ensures b <==> exists i: nat :: OccursAt(s, sub, i)
  {
    OccursFrom(s, sub, 0)
  }

  // ---------------------------------------------------------------------------
  // str(n) and int(s)
  // ---------------------------------------------------------------------------

  function DigitChar(d: nat): (c: char)
    requires d < 10
    ensures IsDigit(c)
  {
    (('0' as int) + d) as char
  }

  function DigitValue(c: char): (d: nat)
    requires IsDigit(c)
    ensures d < 10
  {
    (c as int) - ('0' as int)
  }

  /** `str(n)` for a natural number: its decimal digits, without leading zeros. */
  function NatToString(n: nat): (s: string)
    ensures |s| > 0
    ensures forall i :: 0 <= i < |s| ==> IsDigit(s[i])
    ensures |s| > 1 ==> s[0] != '0'
  {
    if n < 10 then [DigitChar(n)] else NatToString(n / 10) + [DigitChar(n % 10)]
  }

  /** s without the whitespace `int()` ignores at either end. */
  function IntStrip(s: string): (t: string)
    ensures |t| <= |s|
    ensures t != [] ==> !IsIntSpace(t[0]) && !IsIntSpace(t[|t| - 1])
    ensures t == [] <==> forall i :: 0 <= i < |s| ==> IsIntSpace(s[i])
    ensures forall i :: 0 <= i < |t| ==> t[i] in s
    ensures s != [] && !IsIntSpace(s[0]) ==> t != [] && t[0] == s[0]
    decreases |s|
  {
    if s != [] && IsIntSpace(s[0]) then IntStrip(s[1..])
    else if s != [] && IsIntSpace(s[|s| - 1]) then IntStrip(s[..|s| - 1])
    else s
  }

  /** The first p and the last q characters of s are all whitespace that `int()` ignores. */
  ghost predicate IntPadding(s: string, p: nat, q: nat) {
    && p + q <= |s|
    && (forall i :: 0 <= i < p ==> IsIntSpace(s[i]))
    && (forall i :: |s| - q <= i < |s| ==> IsIntSpace(s[i]))
  }

  /** s[p..|s| - q] is what remains of s once padding of p and q characters is cut off. */
  ghost predicate IsMiddle(s: string, t: string) {
    exists p: nat, q: nat :: IntPadding(s, p, q) && t == s[p..|s| - q]
  }

  /** The strip cuts off nothing but `int()` whitespace, and only at the two ends: the rest stays in place. */
  lemma {:induction false} IntStripIsMiddle(s: string)
    ensures IsMiddle(s, IntStrip(s))
    decreases |s|
  {
    if s != [] && IsIntSpace(s[0]) {
      IntStripIsMiddle(s[1..]);
      MiddleAfterBlank(s, IntStrip(s[1..]));
    } else if s != [] && IsIntSpace(s[|s| - 1]) {
      IntStripIsMiddle(s[..|s| - 1]);
      MiddleBeforeBlank(s, IntStrip(s[..|s| - 1]));
    } else {
      assert s[0..|s| - 0] == s;
      assert IntPadding(s, 0, 0);
    }
  }

  /** What remains of s[1..], after a leading blank, is what remains of s. */
  lemma MiddleAfterBlank(s: string, t: string)
    requires s != [] && IsIntSpace(s[0]) && IsMiddle(s[1..], t)
    ensures IsMiddle(s, t)
  {
    var p: nat, q: nat :| IntPadding(s[1..], p, q) && t == s[1..][p..|s| - 1 - q];
    assert forall i :: 1 <= i < |s| ==> s[i] == s[1..][i - 1];
    assert t == s[p + 1..|s| - q];
    assert IntPadding(s, p + 1, q);
  }

  /** What remains of s[..|s| - 1], before a trailing blank, is what remains of s. */
  lemma MiddleBeforeBlank(s: string, t: string)
    requires s != [] && IsIntSpace(s[|s| - 1]) && IsMiddle(s[..|s| - 1], t)
    ensures IsMiddle(s, t)
  {
    var p: nat, q: nat :| IntPadding(s[..|s| - 1], p, q) && t == s[..|s| - 1][p..|s| - 1 - q];
    assert t == s[p..|s| - (q + 1)];
    assert IntPadding(s, p, q + 1);
  }

  /**
    The digit part Python's int() accepts in base 10: ASCII digits, where a single
    underscore may stand between two digits.
   */
  predicate WellFormedDigits(d: string) {
    && |d| > 0
    && IsDigit(d[0])
    && IsDigit(d[|d| - 1])
    && (forall i :: 0 <= i < |d| ==> IsDigit(d[i]) || d[i] == '_')
    && (forall i :: 0 <= i < |d| - 1 && d[i] == '_' ==> IsDigit(d[i + 1]))
  }

  /** The number the digits of d spell, underscores skipped. */
  function DigitsValue(d: string): nat
    requires forall i :: 0 <= i < |d| ==> IsDigit(d[i]) || d[i] == '_'
  {
    if d == [] then 0
    else if d[|d| - 1] == '_' then DigitsValue(d[..|d| - 1])
    else 10 * DigitsValue(d[..|d| - 1]) + DigitValue(d[|d| - 1])
  }

  function ParseDigits(d: string): Option<nat> {
    if WellFormedDigits(d) then Some(DigitsValue(d))
    else None
  }

  /**
    `int(s)`: whitespace around the number is ignored and an optional sign may precede
    the digits; None is the ValueError Python raises for anything else.
   */
  function ParseInt(s: string): Option<int> {
    var t := IntStrip(s);
    if |t| > 0 && (t[0] == '-' || t[0] == '+') then
      match ParseDigits(t[1..])
      case None => None
      case Some(n) => var v: int := if t[0] == '-' then -(n as int) else n; Some(v)
    else
      match ParseDigits(t)
      case None => None
      case Some(n) => Some(n)
  }

  lemma {:induction false} DigitsValueOfNatToString(n: nat)
    ensures DigitsValue(NatToString(n)) == n
    decreases n
  {
    if n >= 10 {
      var s := NatToString(n);
      assert s[..|s| - 1] == NatToString(n / 10);
      DigitsValueOfNatToString(n / 10);
    }
  }

  /** A string with no whitespace at either end is its own strip. */
  lemma StripUnpadded(s: string)
    requires s != [] && !IsIntSpace(s[0]) && !IsIntSpace(s[|s| - 1])
    ensures IntStrip(s) == s
  {
  }

  /** `int(str(n)) == n`: the text of a natural number reads back as that number. */
  lemma ParseNatToString(n: nat)
    ensures ParseInt(NatToString(n)) == Some(n)
  {
    var s := NatToString(n);
    ParseDigitsOfNatToString(n);
    StripUnpadded(s);
  }

  /** The digits of `str(n)` are well formed and spell n. */
  lemma ParseDigitsOfNatToString(n: nat)
    ensures ParseDigits(NatToString(n)) == Some(n)
  {
    DigitsValueOfNatToString(n);
    assert WellFormedDigits(NatToString(n));
  }

  /** A sign directly before well-formed digits gives their value, negated for '-'. */
  lemma ParseSigned(sign: char, d: string, v: nat)
    requires sign == '-' || sign == '+'
    requires ParseDigits(d) == Some(v)
    ensures ParseInt([sign] + d) == Some(if sign == '-' then -(v as int) else v)
  {
    var s := [sign] + d;
    assert s[|s| - 1] == d[|d| - 1];
    StripUnpadded(s);
    assert s[1..] == d;
  }

  /** `int('-' + str(n)) == -n`: a negative number is an integer too, not a ValueError. */
  lemma ParseNegative(n: nat)
    ensures ParseInt("-" + NatToString(n)) == Some(-(n as int))
  {
    var d := NatToString(n);
    ParseDigitsOfNatToString(n);
    ParseSigned('-', d, n);
  }

  /** A token with no digit at all is never an integer. */
  lemma ParseNeedsDigit(s: string)
    requires forall i :: 0 <= i < |s| ==> !IsDigit(s[i])
    ensures ParseInt(s).None?
  {
  }

  /**
    A token that starts with one of the separators U+001C..U+001F is never an integer:
    `split()` would skip that character, but `int()` does not.
   */
  lemma ParseRejectsSeparator(c: char, s: string)
    requires '\U{1c}' <= c <= '\U{1f}'
    ensures IsSpace(c) && ParseInt([c] + s).None?
  {
    var t := IntStrip([c] + s);
    assert t[0] == c;
  }

  // ---------------------------------------------------------------------------
  // url.split('/')[-1]
  // ---------------------------------------------------------------------------

  /**
    `url.split('/')[-1]`: the text after the last '/', or the whole of url when it
    holds no '/'.
   */
  function LastSegment(url: string): (name: string)
    ensures |name| <= |url|
    ensures '/' !in name
    ensures |name| < |url| ==> url[|url| - |name| - 1] == '/'
    ensures '/' !in url ==> name == url
  {
    if |url| == 0 || url[|url| - 1] == '/' then []
    else LastSegment(url[..|url| - 1]) + [url[|url| - 1]]
  }

  /**
    The name is the end of the URL: url[|url| - |name|..]. Together with the contract
    of LastSegment this says the name is the text after the last '/'.
   */
  lemma {:induction false} LastSegmentIsSuffix(url: string)
    ensures LastSegment(url) == url[|url| - |LastSegment(url)|..]
    decreases |url|
  {
    if |url| > 0 && url[|url| - 1] != '/' {
      var init := url[..|url| - 1];
      LastSegmentIsSuffix(init);
      assert init[|init| - |LastSegment(init)|..] + [url[|url| - 1]] == url[|url| - |LastSegment(url)|..];
    }
  }

  /** Whatever precedes the last '/' has no bearing on the name. */
  lemma {:induction false} LastSegmentAfterSlash(prefix: string, name: string)
    requires '/' !in name
    ensures LastSegment(prefix + "/" + name) == name
    decreases |name|
  {
    var url := prefix + "/" + name;
    if name != [] {
      var init := name[..|name| - 1];
      assert url[..|url| - 1] == prefix + "/" + init;
      assert name[|name| - 1] in name;
      assert '/' !in init by {
        assert forall i :: 0 <= i < |init| ==> init[i] == name[i];
      }
      LastSegmentAfterSlash(prefix, init);
      assert name == init + [name[|name| - 1]];
    }
  }
}
