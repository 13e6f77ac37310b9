/** The line regex of parse_devices_from_text,
      ^(.*?)([A-Z]{1,5}\d{3,}[A-Z0-9\-]*)\s*(.*?)(Mobile|Cellular|โทรศัพท์|สมาร์ทโฟน|Smartphone)?(.*)$
    applied with re.match and re.IGNORECASE to one stripped line, as a hand-written scanner.
    The lazy `(.*?)` makes group 2 start at the leftmost position where it can match at all,
    and everything after group 2 can always match, so no alternative of group 2 is ever
    rejected: it is the greedy (here also the longest) match at that position. After it, `\s*`
    takes every space, the second lazy group stays empty, the optional keyword group matches
    when a keyword follows directly, and `(.*)` takes the rest. */
module ModelCode {
  import opened Wrappers
  import opened Text

  /** The character classes of the line pattern, under IGNORECASE. */
  datatype CharClass = Letter | Digit | CodeChar

  predicate InClass(c: char, k: CharClass) {
    match k
    case Letter => IsLetter(c)
    case Digit => IsDigit(c)
    case CodeChar => IsLetter(c) || IsDigit(c) || c == '-'
  }

  /** Every character of s[i..j] is in class k. */
  predicate AllIn(s: string, i: int, j: int, k: CharClass) {
    0 <= i <= j <= |s| && forall x :: i <= x < j ==> InClass(s[x], k)
  }

  /** The length of the longest run of class-k characters starting at i. */
  function Run(s: string, i: nat, k: CharClass): (n: nat)
    requires i <= |s|
    ensures AllIn(s, i, i + n, k)
    ensures i + n == |s| || !InClass(s[i + n], k)
    decreases |s| - i
  {
    if i < |s| && InClass(s[i], k) then 1 + Run(s, i + 1, k) else 0
  }

  /** A run is the longest: any stretch of class-k characters from i lies inside it. */
  lemma {:induction false} RunIsLongest(s: string, i: nat, j: nat, k: CharClass)
    requires AllIn(s, i, j, k)
    ensures j <= i + Run(s, i, k)
    decreases j - i
  {
    if i < j {
      RunIsLongest(s, i + 1, j, k);
    }
  }

  /** s[p..q] is in the language of `[A-Z]{1,5}\d{3,}[A-Z0-9\-]*` (IGNORECASE): one to five
      letters up to m, at least three digits up to n, then code characters up to q. */
  ghost predicate PatternAt(s: string, p: int, q: int) {
    exists m, n :: p < m <= p + 5 && m + 3 <= n && AllIn(s, p, m, Letter) && AllIn(s, m, n, Digit) && AllIn(s, n, q, CodeChar)
  }

  /** The scanner's test for "group 2 can start at p": the letter run from p has one to five
      letters (a longer run cannot be followed by a digit within five letters) and at least
      three digits follow it. */
  predicate StartsCode(s: string, p: nat)
    requires p <= |s|
  {
    var l := Run(s, p, Letter);
    1 <= l <= 5 && Run(s, p + l, Digit) >= 3
  }

  datatype Span = Span(start: nat, end: nat)

  /** The first position at or after p where group 2 can start, with the end of the longest
      run of code characters from there. */
  function FindCodeFrom(s: string, p: nat): (r: Option<Span>)
    requires p <= |s|
    ensures r.Some? ==> p <= r.value.start <= |s| && StartsCode(s, r.value.start)
    ensures r.Some? ==> r.value.end == r.value.start + Run(s, r.value.start, CodeChar)
    decreases |s| - p
  {
    if p == |s| then None
    else if StartsCode(s, p) then Some(Span(p, p + Run(s, p, CodeChar)))
    else FindCodeFrom(s, p + 1)
  }

  /** Group 2 of the line regex: where the model code lies in the line, if anywhere. */
  function FindCode(s: string): (r: Option<Span>)
    ensures r.Some? ==> r.value.start + 4 <= r.value.end <= |s|
  {
    var r := FindCodeFrom(s, 0);
    if r.Some? then StartsCodeIsPattern(s, r.value.start); r else r
  }

  /** The scanner's test agrees with the pattern: group 2 can start at p exactly when some
      s[p..q] is in the pattern's language, and the longest such q ends the code-character run. */
  lemma StartsCodeIsPattern(s: string, p: nat)
    requires p <= |s|
    ensures StartsCode(s, p) <==> exists q :: PatternAt(s, p, q)
    ensures StartsCode(s, p) ==> PatternAt(s, p, p + Run(s, p, CodeChar)) && p + 4 <= p + Run(s, p, CodeChar)
    ensures forall q :: PatternAt(s, p, q) ==> q <= p + Run(s, p, CodeChar)
  {
    forall q | PatternAt(s, p, q) ensures StartsCode(s, p) && q <= p + Run(s, p, CodeChar) {
      PatternIsStart(s, p, q);
    }
    if StartsCode(s, p) {
      StartIsPattern(s, p);
    }
  }

  /** Letters then digits are code characters. */
  lemma CodeCharsSpan(s: string, p: nat, m: nat, n: nat)
    requires AllIn(s, p, m, Letter) && AllIn(s, m, n, Digit)
    ensures AllIn(s, p, n, CodeChar)
  {
    forall x | p <= x < n ensures InClass(s[x], CodeChar) {
      if x < m { assert InClass(s[x], Letter); } else { assert InClass(s[x], Digit); }
    }
  }

  lemma PatternIsStart(s: string, p: nat, q: int)
    requires p <= |s| && PatternAt(s, p, q)
    ensures StartsCode(s, p) && q <= p + Run(s, p, CodeChar)
  {
    var m, n :| p < m <= p + 5 && m + 3 <= n && AllIn(s, p, m, Letter) && AllIn(s, m, n, Digit) && AllIn(s, n, q, CodeChar);
    assert InClass(s[m], Digit);
    RunIsLongest(s, p, m, Letter);
    assert Run(s, p, Letter) == m - p;
    RunIsLongest(s, m, n, Digit);
    CodeCharsSpan(s, p, m, n);
    assert AllIn(s, p, q, CodeChar);
    RunIsLongest(s, p, q, CodeChar);
  }

  lemma StartIsPattern(s: string, p: nat)
    requires p <= |s| && StartsCode(s, p)
    ensures PatternAt(s, p, p + Run(s, p, CodeChar)) && p + 4 <= p + Run(s, p, CodeChar)
  {
    var m := p + Run(s, p, Letter);
    var n := m + Run(s, m, Digit);
    var q := p + Run(s, p, CodeChar);
    CodeCharsSpan(s, p, m, n);
    RunIsLongest(s, p, n, CodeChar);
    assert AllIn(s, n, q, CodeChar);
    assert PatternAt(s, p, q);
  }

  /** No occurrence of the pattern starts at the end of the string or beyond it. */
  lemma NoPatternAtEnd(s: string, i: int, q: int)
    requires |s| <= i
    ensures !PatternAt(s, i, q)
  {
  }

  /** The scanner finds the leftmost start of a pattern occurrence at or after p, with the
      longest occurrence there, and finds nothing exactly when there is no occurrence. */
  lemma {:induction false} FindCodeFromIsLeftmostLongest(s: string, p: nat)
    requires p <= |s|
    ensures FindCodeFrom(s, p).None? <==> forall i, q :: p <= i ==> !PatternAt(s, i, q)
    ensures FindCodeFrom(s, p).Some? ==>
      var sp := FindCodeFrom(s, p).value;
      PatternAt(s, sp.start, sp.end) &&
      (forall i, q :: p <= i < sp.start ==> !PatternAt(s, i, q)) &&
      (forall q :: PatternAt(s, sp.start, q) ==> q <= sp.end)
    decreases |s| - p
  {
    if p == |s| {
      forall i, q | p <= i ensures !PatternAt(s, i, q) {
        NoPatternAtEnd(s, i, q);
      }
    } else if StartsCode(s, p) {
      assert FindCodeFrom(s, p) == Some(Span(p, p + Run(s, p, CodeChar)));
      StartsCodeIsPattern(s, p);
    } else {
      StartsCodeIsPattern(s, p);
      FindCodeFromIsLeftmostLongest(s, p + 1);
      var r := FindCodeFrom(s, p + 1);
      assert FindCodeFrom(s, p) == r;
      if r.Some? {
        NoneBefore(s, p, r.value.start);
      } else {
        NoneAfter(s, p);
      }
    }
  }

  /** Extending "no occurrence starts in [p + 1, stop)" by a position p where none starts. */
  lemma NoneBefore(s: string, p: nat, stop: nat)
    requires forall q :: !PatternAt(s, p, q)
    requires forall i, q :: p + 1 <= i < stop ==> !PatternAt(s, i, q)
    ensures forall i, q :: p <= i < stop ==> !PatternAt(s, i, q)
  {
  }

  lemma NoneAfter(s: string, p: nat)
    requires forall q :: !PatternAt(s, p, q)
    requires forall i, q :: p + 1 <= i ==> !PatternAt(s, i, q)
    ensures forall i, q :: p <= i ==> !PatternAt(s, i, q)
  {
  }

  /** Group 2 is the leftmost-longest occurrence of the model-code pattern, absent exactly
      when the line holds no occurrence. */
  lemma FindCodeIsLeftmostLongest(s: string)
    ensures FindCode(s).None? <==> forall i, q :: !PatternAt(s, i, q)
    ensures FindCode(s).Some? ==>
      var sp := FindCode(s).value;
      PatternAt(s, sp.start, sp.end) &&
      (forall i, q :: 0 <= i < sp.start ==> !PatternAt(s, i, q)) &&
      (forall q :: PatternAt(s, sp.start, q) ==> q <= sp.end)
  {
    FindCodeFromIsLeftmostLongest(s, 0);
    forall i, q | PatternAt(s, i, q) ensures 0 <= i {
      var m, n :| i < m <= i + 5 && m + 3 <= n && AllIn(s, i, m, Letter) && AllIn(s, m, n, Digit) && AllIn(s, n, q, CodeChar);
    }
  }

  /** The alternatives of `(Mobile|Cellular|โทรศัพท์|สมาร์ทโฟน|Smartphone)`, in order. */
  const Keywords: seq<string> := ["Mobile", "Cellular", "โทรศัพท์", "สมาร์ทโฟน", "Smartphone"]

  /** t starts with kw, ignoring ASCII case. */
  predicate KeywordMatch(t: string, kw: string) {
    |kw| <= |t| && Lower(t[..|kw|]) == Lower(kw)
  }

  /** The length of the first alternative in kws that t starts with. */
  function KeywordAt(t: string, kws: seq<string>): (r: Option<nat>)
    ensures r.Some? ==> r.value <= |t|
  {
    if kws == [] then None
    else if KeywordMatch(t, kws[0]) then Some(|kws[0]|)
    else KeywordAt(t, kws[1..])
  }

  /** The alternation picks the first alternative, in the order written, that matches. */
  lemma {:induction false} KeywordAtIsFirstMatch(t: string, kws: seq<string>)
    ensures KeywordAt(t, kws).Some? ==>
      exists k :: 0 <= k < |kws| && |kws[k]| == KeywordAt(t, kws).value && KeywordMatch(t, kws[k]) &&
        forall j :: 0 <= j < k ==> !KeywordMatch(t, kws[j])
    ensures KeywordAt(t, kws).None? <==> forall k :: 0 <= k < |kws| ==> !KeywordMatch(t, kws[k])
  {
    if kws != [] && !KeywordMatch(t, kws[0]) {
      KeywordAtIsFirstMatch(t, kws[1..]);
      assert forall k :: 1 <= k < |kws| ==> kws[k] == kws[1..][k - 1];
      if KeywordAt(t, kws).Some? {
        var k :| 0 <= k < |kws[1..]| && |kws[1..][k]| == KeywordAt(t, kws).value && KeywordMatch(t, kws[1..][k]) &&
          forall j :: 0 <= j < k ==> !KeywordMatch(t, kws[1..][j]);
        assert |kws[k + 1]| == KeywordAt(t, kws).value && KeywordMatch(t, kws[k + 1]);
      }
    }
  }

  lemma SplitAt(s: string, k: nat)
    requires k <= |s|
    ensures s == s[..k] + s[k..]
  {
  }

  /** The five groups of a successful match. */
  datatype Groups = Groups(before: string, code: string, between: string, deviceType: Option<string>, after: string)

  /** re.match of the line regex on a line without newlines: None when no model code occurs.
      `before` is the text up to the code, `between` is always empty, and the keyword (if
      any) and `after` make up what follows the code once `\s*` has taken its spaces. */
  function MatchLine(line: string): (g: Option<Groups>)
    ensures g.Some? <==> FindCode(line).Some?
    ensures g.Some? ==> |g.value.code| >= 4
    ensures g.Some? ==>
      var sp := FindCode(line).value;
      g.value.before == line[..sp.start] && g.value.code == line[sp.start..sp.end] && g.value.between == [] &&
      TrimStart(line[sp.end..]) == (if g.value.deviceType.Some? then g.value.deviceType.value else []) + g.value.after
    ensures g.Some? ==>
      var rest := TrimStart(line[FindCode(line).value.end..]);
      var kw := KeywordAt(rest, Keywords);
      g.value.deviceType == (if kw.Some? then Some(rest[..kw.value]) else None) &&
      g.value.after == (if kw.Some? then rest[kw.value..] else rest)
  {
    match FindCode(line)
    case None => None
    case Some(sp) =>
      var rest := TrimStart(line[sp.end..]);
      var kw := KeywordAt(rest, Keywords);
      var dt := if kw.Some? then Some(rest[..kw.value]) else None;
      var after := if kw.Some? then rest[kw.value..] else rest;
      SplitAt(rest, if kw.Some? then kw.value else 0);
      Some(Groups(line[..sp.start], line[sp.start..sp.end], [], dt, after))
  }

  /** On a stripped line every non-empty group has a word: `part.strip().split()[0]` never fails. */
  lemma GroupsHaveWords(line: string)
    requires IsStripped(line)
    ensures MatchLine(line).Some? ==>
      var g := MatchLine(line).value;
      (g.before != [] ==> Strip(g.before) != []) &&
      (g.between != [] ==> Strip(g.between) != []) &&
      (g.after != [] ==> Strip(g.after) != [])
  {
    if MatchLine(line).Some? {
      var g := MatchLine(line).value;
      var sp := FindCode(line).value;
      if g.before != [] {
        StrippedPrefixHasWord(line, sp.start);
      }
      if g.after != [] {
        SuffixOfSuffix(line, sp.end, if g.deviceType.Some? then g.deviceType.value else [], g.after);
        StrippedSuffixHasWord(line, |line| - |g.after|);
      }
    }
  }

  /** After the code and its spaces, group 4 is the first alternative, in the order written,
      that the rest of the line starts with, and group 5 is what follows it; with no such
      alternative group 4 is absent and group 5 is the whole rest. */
  lemma MatchLineKeyword(line: string)
    ensures MatchLine(line).Some? ==>
      var g := MatchLine(line).value;
      var rest := TrimStart(line[FindCode(line).value.end..]);
      (g.deviceType.None? <==> forall k :: 0 <= k < |Keywords| ==> !KeywordMatch(rest, Keywords[k])) &&
      (g.deviceType.None? ==> g.after == rest) &&
      (g.deviceType.Some? ==>
        exists k :: (0 <= k < |Keywords| && KeywordMatch(rest, Keywords[k]) &&
          (forall j :: 0 <= j < k ==> !KeywordMatch(rest, Keywords[j])) &&
          g.deviceType.value == rest[..|Keywords[k]|] && g.after == rest[|Keywords[k]|..]))
  {
    if MatchLine(line).Some? {
      KeywordAtIsFirstMatch(TrimStart(line[FindCode(line).value.end..]), Keywords);
    }
  }

  /** `after` is a suffix of whatever follows the code, hence of the line. */
  lemma SuffixOfSuffix(line: string, e: nat, dt: string, after: string)
    requires e <= |line| && TrimStart(line[e..]) == dt + after
    ensures |after| <= |line| && after == line[|line| - |after|..]
  {
    var tail := line[e..];
    var rest := TrimStart(tail);
    assert after == rest[|dt|..];
    assert rest[|dt|..] == rest[|rest| - |after|..];
    SuffixChain(line, tail, rest, after);
  }

  lemma SuffixChain(line: string, tail: string, rest: string, after: string)
    requires |tail| <= |line| && tail == line[|line| - |tail|..]
    requires |rest| <= |tail| && rest == tail[|tail| - |rest|..]
    requires |after| <= |rest| && after == rest[|rest| - |after|..]
    ensures after == line[|line| - |after|..]
  {
  }
}
