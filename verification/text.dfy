/** Python string operations the retrieval code relies on, over `seq<char>`:
    ASCII `lower()`, `strip()`, `split()`, `split(sep)`, `re.split` on runs of
    punctuation, the `in` substring test, `startswith`, `isdigit` and `str(n)`. */
module Text {
  import opened Seqs

  type String = seq<char>

  /** Python's ASCII whitespace as `str.isspace`, `str.split()` and `str.strip()` see
      it: space, tab, newline, vertical tab, form feed, carriage return and the
      four separators 0x1C to 0x1F. */
  predicate IsSpace(c: char) {
    c == ' ' || c == '\t' || c == '\n' || c == '\r' || c as int == 11 || c as int == 12 ||
    28 <= c as int <= 31
  }

  predicate IsDigit(c: char) {
    '0' <= c <= '9'
  }

  /** Regex `\w` restricted to ASCII: letters, digits and underscore. */
  predicate IsWordChar(c: char) {
    ('a' <= c <= 'z') || ('A' <= c <= 'Z') || IsDigit(c) || c == '_'
  }

  function LowerChar(c: char): char {
    if 'A' <= c <= 'Z' then (c as int - 'A' as int + 'a' as int) as char else c
  }

  /** `s.lower()` on ASCII letters. */
  function Lower(s: String): (r: String)
    ensures |r| == |s|
    ensures forall i :: 0 <= i < |s| ==> r[i] == LowerChar(s[i])
  {
    if |s| == 0 then [] else [LowerChar(s[0])] + Lower(s[1..])
  }

  /** `s.startswith(p)`. */
  predicate StartsWith(s: String, p: String) {
    |p| <= |s| && s[..|p|] == p
  }

  /** Python's `sub in s`. */
  predicate Contains(s: String, sub: String)
    decreases |s|
  {
    StartsWith(s, sub) || (|s| > 0 && Contains(s[1..], sub))
  }

  /** An occurrence of `sub` at offset `k` makes `sub in s` true. */
  lemma {:induction false} ContainsAt(s: String, sub: String, k: nat)
    requires k + |sub| <= |s| && s[k..k + |sub|] == sub
    ensures Contains(s, sub)
  {
    if k > 0 {
      assert s[1..][k - 1..k - 1 + |sub|] == sub;
      ContainsAt(s[1..], sub, k - 1);
    }
  }

  /** Two adjacent characters of `s` make a two-character substring. */
  lemma ContainsPair(s: String, k: nat, a: char, b: char)
    requires k + 1 < |s| && s[k] == a && s[k + 1] == b
    ensures Contains(s, [a, b])
  {
    assert s[k..k + 2] == [a, b];
    ContainsAt(s, [a, b], k);
  }

  /** Python's `s.isdigit()` on ASCII: non-empty and all digits. */
  predicate IsDigits(s: String) {
    |s| > 0 && forall i :: 0 <= i < |s| ==> IsDigit(s[i])
  }

  /** Every character is whitespace (the empty string included). */
  predicate IsBlank(s: String) {
    forall i :: 0 <= i < |s| ==> IsSpace(s[i])
  }

  /** Drops leading characters satisfying `p`. */
  function StripLeftBy(s: String, p: char -> bool): (r: String)
    ensures |r| <= |s| && r == s[|s| - |r|..]
    ensures |r| > 0 ==> !p(r[0])
  {
    if |s| > 0 && p(s[0]) then
      var r := StripLeftBy(s[1..], p);
      assert s[1..][|s| - 1 - |r|..] == s[|s| - |r|..];
      r
    else s
  }

  /** Drops trailing characters satisfying `p`. */
  function StripRightBy(s: String, p: char -> bool): (r: String)
    ensures |r| <= |s| && r == s[..|r|]
    ensures |r| > 0 ==> !p(r[|r| - 1])
  {
    if |s| > 0 && p(s[|s| - 1]) then
      var r := StripRightBy(s[..|s| - 1], p);
      assert s[..|s| - 1][..|r|] == s[..|r|];
      r
    else s
  }

  /** Python's `s.strip(chars)` for the characters satisfying `p`. */
  function StripBy(s: String, p: char -> bool): String {
    StripRightBy(StripLeftBy(s, p), p)
  }

  /** Python's `s.strip()`. */
  function Strip(s: String): String {
    StripBy(s, IsSpace)
  }

  /** The prefix of `s` up to (not including) the first character satisfying `p`. */
  function TakeUntil(s: String, p: char -> bool): (r: String)
    ensures r <= s
    ensures forall i :: 0 <= i < |r| ==> !p(r[i])
    ensures |r| < |s| ==> p(s[|r|])
  {
    if |s| == 0 || p(s[0]) then [] else [s[0]] + TakeUntil(s[1..], p)
  }

  /** Python's `s.split()`: the maximal runs of non-whitespace characters. */
  function Words(s: String): (r: seq<String>)
    ensures forall k :: 0 <= k < |r| ==> IsWord(r[k])
    decreases |s|
  {
    var t := StripLeftBy(s, IsSpace);
    if |t| == 0 then []
    else
      var w := TakeUntil(t, IsSpace);
      assert IsWord(w);
      [w] + Words(t[|w|..])
  }

  /** A non-empty run of non-whitespace characters. */
  predicate IsWord(w: String) {
    |w| > 0 && forall i :: 0 <= i < |w| ==> !IsSpace(w[i])
  }

  /** Python's `s.split(sep)` for a non-empty separator: splits at the
      leftmost non-overlapping occurrences. */
  function SplitOn(s: String, sep: String): (r: seq<String>)
    requires |sep| > 0
    ensures |r| >= 1
    decreases |s|
  {
    if |s| == 0 then [[]]
    else if StartsWith(s, sep) then [[]] + SplitOn(s[|sep|..], sep)
    else
      var rest := SplitOn(s[1..], sep);
      [[s[0]] + rest[0]] + rest[1..]
  }

  /** Python's `re.split('[...]+', s)`: splits at maximal runs of characters satisfying `p`. */
  function SplitRuns(s: String, p: char -> bool): (r: seq<String>)
    ensures |r| >= 1
    decreases |s|
  {
    if |s| == 0 then [[]]
    else if p(s[0]) then [[]] + SplitRuns(StripLeftBy(s, p), p)
    else
      var rest := SplitRuns(s[1..], p);
      [[s[0]] + rest[0]] + rest[1..]
  }

  /** No piece of `SplitRuns` contains a separator character. */
  lemma {:induction false} SplitRunsPieces(s: String, p: char -> bool)
    ensures forall k, i :: 0 <= k < |SplitRuns(s, p)| && 0 <= i < |SplitRuns(s, p)[k]| ==> !p(SplitRuns(s, p)[k][i])
    decreases |s|
  {
    if |s| > 0 {
      if p(s[0]) {
        SplitRunsPieces(StripLeftBy(s, p), p);
      } else {
        SplitRunsPieces(s[1..], p);
      }
    }
  }

  /** Python's `sep.join(parts)`. */
  function Join(parts: seq<String>, sep: String): String {
    if |parts| == 0 then []
    else if |parts| == 1 then parts[0]
    else parts[0] + sep + Join(parts[1..], sep)
  }

  function DigitChar(d: nat): (c: char)
    requires d < 10
    ensures IsDigit(c)
  {
    "0123456789"[d]
  }

  /** Python's `str(n)` for a natural number. */
  function NatToString(n: nat): (r: String)
    ensures |r| > 0
    ensures forall i :: 0 <= i < |r| ==> IsDigit(r[i])
    ensures (|r| == 1) == (n < 10)
  {
    if n < 10 then [DigitChar(n)] else NatToString(n / 10) + [DigitChar(n % 10)]
  }

  lemma {:induction false} DigitCharInjective(a: nat, b: nat)
    requires a < 10 && b < 10 && DigitChar(a) == DigitChar(b)
    ensures a == b
  {
  }

  /** Decimal rendering is injective: two naturals print alike only if they are equal. */
  lemma {:induction false} NatToStringInjective(a: nat, b: nat)
    ensures NatToString(a) == NatToString(b) ==> a == b
    decreases a
  {
    var sa, sb := NatToString(a), NatToString(b);
    if sa == sb {
      if a < 10 {
        DigitCharInjective(a, b);
      } else {
        assert b >= 10;
        assert sa[|sa| - 1] == DigitChar(a % 10) && sb[|sb| - 1] == DigitChar(b % 10);
        DigitCharInjective(a % 10, b % 10);
        assert sa[..|sa| - 1] == NatToString(a / 10);
        assert sb[..|sb| - 1] == NatToString(b / 10);
        NatToStringInjective(a / 10, b / 10);
      }
    }
  }

  /** `Strip` yields the empty string exactly for blank strings. */
  lemma StripEmptyIffBlank(s: String)
    ensures Strip(s) == [] <==> IsBlank(s)
  {
    if IsBlank(s) {
      BlankStripsToEmpty(s);
    } else {
      var k :| 0 <= k < |s| && !IsSpace(s[k]);
      NonBlankSurvivesStrip(s, k);
    }
  }

  lemma BlankStripsToEmpty(s: String)
    requires IsBlank(s)
    ensures Strip(s) == []
  {
    assert |StripLeftBy(s, IsSpace)| == 0;
  }

  lemma NonBlankSurvivesStrip(s: String, k: nat)
    requires k < |s| && !IsSpace(s[k])
    ensures |Strip(s)| > 0
  {
    var l := StripLeftBy(s, IsSpace);
    LeftStripKeeps(s, IsSpace, k);
    var j := k - (|s| - |l|);
    assert l[j] == s[k];
    RightStripKeeps(l, IsSpace, j);
  }

  /** A character that `p` rejects survives a left strip. */
  lemma LeftStripKeeps(s: String, p: char -> bool, k: nat)
    requires k < |s| && !p(s[k])
    ensures k >= |s| - |StripLeftBy(s, p)|
  {
    if |s| > 0 && p(s[0]) {
      LeftStripKeeps(s[1..], p, k - 1);
    }
  }

  /** A character that `p` rejects survives a right strip. */
  lemma RightStripKeeps(s: String, p: char -> bool, k: nat)
    requires k < |s| && !p(s[k])
    ensures k < |StripRightBy(s, p)|
  {
    if |s| > 0 && p(s[|s| - 1]) {
      RightStripKeeps(s[..|s| - 1], p, k);
    }
  }

  /** Lowering case and stripping whitespace commute. */
  lemma LowerStripCommute(s: String)
    ensures Strip(Lower(s)) == Lower(Strip(s))
  {
    LowerStripLeft(s);
    LowerStripRight(StripLeftBy(s, IsSpace));
  }

  lemma LowerStripLeft(s: String)
    ensures StripLeftBy(Lower(s), IsSpace) == Lower(StripLeftBy(s, IsSpace))
  {
    if |s| > 0 {
      var ls := Lower(s);
      assert ls[0] == LowerChar(s[0]);
      assert ls[1..] == Lower(s[1..]);
      if IsSpace(s[0]) {
        LowerStripLeft(s[1..]);
      }
    }
  }

  lemma LowerStripRight(s: String)
    ensures StripRightBy(Lower(s), IsSpace) == Lower(StripRightBy(s, IsSpace))
  {
    if |s| > 0 {
      var ls := Lower(s);
      assert ls[|s| - 1] == LowerChar(s[|s| - 1]);
      assert ls[..|s| - 1] == Lower(s[..|s| - 1]);
      if IsSpace(s[|s| - 1]) {
        LowerStripRight(s[..|s| - 1]);
      }
    }
  }
}
