/** String operations the scrapers take from Python's str type: `strip`, `split('\n')`,
    `split()[0]`, `lower`, the substring test `in` and rendering an int with an f-string.
    Character classes are ASCII: `IsLetter` and `IsDigit` stand for what `[A-Z]` under
    IGNORECASE, `\d` and `str.isalpha` accept on ASCII text, and `IsSpace` is `str.isspace`
    restricted to code points below 256. */
module Text {

  /** Python's whitespace (str.isspace, str.strip, str.split, regex `\s`) below code point 256. */
  predicate IsSpace(c: char) {
    var n := c as int;
    (9 <= n <= 13) || (28 <= n <= 32) || n == 0x85 || n == 0xA0
  }

  predicate IsLetter(c: char) {
    ('a' <= c <= 'z') || ('A' <= c <= 'Z')
  }

  predicate IsDigit(c: char) {
    '0' <= c <= '9'
  }

  /** Every character of s[i..j] is whitespace. */
  predicate SpacesIn(s: string, i: int, j: int)
    requires 0 <= i <= j <= |s|
  {
    forall k :: i <= k < j ==> IsSpace(s[k])
  }

  predicate AllSpace(s: string) {
    SpacesIn(s, 0, |s|)
  }

  /** A string as `str.strip()` leaves it: no whitespace at either end. */
  predicate IsStripped(s: string) {
    s == [] || (!IsSpace(s[0]) && !IsSpace(s[|s| - 1]))
  }

  /** The number of whitespace characters from position i on. */
  function SpacesFrom(s: string, i: nat): (n: nat)
    requires i <= |s|
    ensures i + n <= |s| && SpacesIn(s, i, i + n)
    ensures i + n == |s| || !IsSpace(s[i + n])
    decreases |s| - i
  {
    if i < |s| && IsSpace(s[i]) then 1 + SpacesFrom(s, i + 1) else 0
  }

  /** The number of whitespace characters just before position j. */
  function SpacesBefore(s: string, j: nat): (n: nat)
    requires j <= |s|
    ensures n <= j && SpacesIn(s, j - n, j)
    ensures n == j || !IsSpace(s[j - n - 1])
  {
    if 0 < j && IsSpace(s[j - 1]) then 1 + SpacesBefore(s, j - 1) else 0
  }

  /** `str.lstrip()`: what is left after dropping every leading whitespace character. */
  function TrimStart(s: string): (r: string)
    ensures |r| <= |s| && r == s[|s| - |r|..]
    ensures SpacesIn(s, 0, |s| - |r|)
    ensures r == [] || !IsSpace(r[0])
  {
    s[SpacesFrom(s, 0)..]
  }

  /** r is s[lead..lead + |r|] and only whitespace surrounds it in s. */
  predicate StripsTo(s: string, lead: nat, r: string) {
    lead + |r| <= |s| && r == s[lead..lead + |r|] &&
    SpacesIn(s, 0, lead) && SpacesIn(s, lead + |r|, |s|)
  }

  /** `str.strip()`: the infix of s between its leading and its trailing whitespace. */
  function Strip(s: string): (r: string)
    ensures IsStripped(r)
    ensures StripsTo(s, |s| - |TrimStart(s)|, r)
    ensures r == [] <==> AllSpace(s)
  {
    var a := SpacesFrom(s, 0);
    var b := |s| - SpacesBefore(s, |s|);
    if a < b then s[a..b]
    else
      assert a == |s|;
      []
  }

  /** A non-empty suffix of a stripped string keeps a word after stripping, because its last
      character is the string's last character. */
  lemma {:induction false} StrippedSuffixHasWord(s: string, i: nat)
    requires IsStripped(s) && i < |s|
    ensures Strip(s[i..]) != []
  {
    assert s[i..][|s| - 1 - i] == s[|s| - 1];
  }

  /** A stripped string's non-empty prefixes keep a word after stripping. */
  lemma {:induction false} StrippedPrefixHasWord(s: string, i: nat)
    requires IsStripped(s) && 0 < i <= |s|
    ensures Strip(s[..i]) != []
  {
    assert s[..i][0] == s[0];
  }

  /** The first position of c in s. */
  function IndexOf(s: string, c: char): (i: nat)
    requires c in s
    ensures i < |s| && s[i] == c && c !in s[..i]
  {
    if s[0] == c then 0
    else
      var j := IndexOf(s[1..], c);
      assert s[..j + 1] == [s[0]] + s[1..][..j];
      j + 1
  }

  /** The inverse of `str.split('\n')`: `'\n'.join(lines)`. */
  function JoinLines(lines: seq<string>): string {
    if lines == [] then ""
    else if |lines| == 1 then lines[0]
    else lines[0] + "\n" + JoinLines(lines[1..])
  }

  /** `str.split('\n')`: the pieces between newlines, at least one, none holding a newline,
      and joining them back gives the text. */
  function SplitLines(s: string): (lines: seq<string>)
    ensures |lines| > 0
    ensures forall k :: 0 <= k < |lines| ==> '\n' !in lines[k]
    ensures JoinLines(lines) == s
    decreases |s|
  {
    if '\n' in s then
      var i := IndexOf(s, '\n');
      var rest := SplitLines(s[i + 1..]);
      assert s == s[..i] + "\n" + s[i + 1..];
      [s[..i]] + rest
    else [s]
  }

  /** Splitting a joined list of newline-free lines gives the lines back. */
  lemma {:induction false} SplitJoinLines(lines: seq<string>)
    requires |lines| > 0
    requires forall k :: 0 <= k < |lines| ==> '\n' !in lines[k]
    ensures SplitLines(JoinLines(lines)) == lines
  {
    if |lines| > 1 {
      var s := JoinLines(lines);
      var h := lines[0];
      var rest := JoinLines(lines[1..]);
      assert s == h + "\n" + rest;
      assert s[|h|] == '\n';
      var i := IndexOf(s, '\n');
      assert i == |h|;
      assert s[..i] == h;
      assert s[i + 1..] == rest;
      SplitJoinLines(lines[1..]);
    }
  }

  /** The longest prefix of s without whitespace. */
  function TakeWord(s: string): (w: string)
    ensures w <= s
    ensures forall k :: 0 <= k < |w| ==> !IsSpace(w[k])
    ensures |w| == |s| || IsSpace(s[|w|])
  {
    if s == [] || IsSpace(s[0]) then [] else [s[0]] + TakeWord(s[1..])
  }

  /** `p.strip().split()[0]`: the first whitespace-separated word of p; Python raises IndexError
      when p is blank, so this requires a word to exist. */
  function FirstWord(p: string): (w: string)
    requires Strip(p) != []
    ensures w != [] && w <= Strip(p)
    ensures forall k :: 0 <= k < |w| ==> !IsSpace(w[k])
    ensures |w| == |Strip(p)| || IsSpace(Strip(p)[|w|])
  {
    TakeWord(Strip(p))
  }

  function LowerChar(c: char): char {
    if 'A' <= c <= 'Z' then (c as int + 32) as char else c
  }

  /** `str.lower()` on ASCII letters; every other character is kept. */
  function Lower(s: string): string {
    seq(|s|, k requires 0 <= k < |s| => LowerChar(s[k]))
  }

  /** The substring test `sub in s`. */
  predicate Contains(s: string, sub: string) {
    sub <= s || (s != [] && Contains(s[1..], sub))
  }

  /** `sub in s` holds exactly when sub starts at some position of s. */
  lemma {:induction false} ContainsAt(s: string, sub: string)
    ensures Contains(s, sub) <==> exists i :: 0 <= i <= |s| && sub <= s[i..]
  {
    if s != [] {
      ContainsAt(s[1..], sub);
      assert forall i :: 1 <= i <= |s| ==> s[1..][i - 1..] == s[i..];
      if sub <= s {
        assert s[0..] == s;
      }
      if exists i :: 0 <= i <= |s| && sub <= s[i..] {
        var i :| 0 <= i <= |s| && sub <= s[i..];
        if i == 0 { assert s[0..] == s; } else { assert sub <= s[1..][i - 1..]; }
      }
    } else {
      assert s[0..] == s;
    }
  }

  /** A piece of a concatenation is contained in it. */
  lemma ContainsInfix(pre: string, sub: string, post: string)
    ensures Contains(pre + sub + post, sub)
  {
    var s := pre + sub + post;
    assert sub <= s[|pre|..];
    ContainsAt(s, sub);
  }

  function DigitChar(d: nat): (c: char)
    requires d < 10
    ensures IsDigit(c) && c as int - '0' as int == d
  {
    ('0' as int + d) as char
  }

  /** The number a non-empty string of decimal digits denotes. */
  function DecimalValue(s: string): nat
    requires forall k :: 0 <= k < |s| ==> IsDigit(s[k])
  {
    if s == [] then 0
    else
      assert IsDigit(s[|s| - 1]);
      10 * DecimalValue(s[..|s| - 1]) + (s[|s| - 1] as int - '0' as int)
  }

  /** `f"{n}"`: the decimal digits of n, without leading zeros. */
  function DecimalString(n: nat): (s: string)
    ensures s != [] && forall k :: 0 <= k < |s| ==> IsDigit(s[k])
    ensures s[0] == '0' ==> s == "0"
    ensures DecimalValue(s) == n
  {
    if n < 10 then [DigitChar(n)]
    else
      var h := DecimalString(n / 10);
      var s := h + [DigitChar(n % 10)];
      assert s[..|s| - 1] == h;
      s
  }
}
