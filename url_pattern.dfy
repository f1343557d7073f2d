/**
 * The URL pattern `https?://[^\s"'<>]+` of extract_urls and the way
 * `re.findall` applies it: leftmost, non-overlapping, greedy matches,
 * scanned from the start of the string.
 */
module UrlPattern {

  /** Python's `\s` on a str pattern: the characters for which `str.isspace()` holds. */
  predicate IsRegexSpace(c: char) {
    var n := c as int;
    (9 <= n <= 13) || (28 <= n <= 32) || n == 0x85 || n == 0xA0 || n == 0x1680
    || (0x2000 <= n <= 0x200A) || n == 0x2028 || n == 0x2029 || n == 0x202F
    || n == 0x205F || n == 0x3000
  }

  /** The characters the class `[^\s"'<>]` excludes: they end a URL. */
  predicate IsTerminator(c: char) {
    IsRegexSpace(c) || c == '"' || c == '\'' || c == '<' || c == '>'
  }

  predicate NoTerminator(t: string) {
    forall k :: 0 <= k < |t| ==> !IsTerminator(t[k])
  }

  /** A whole match of the pattern: the scheme, then at least one non-terminator, and nothing else. */
  predicate IsUrlToken(t: string) {
    || (|t| > 7 && t[..7] == "http://" && NoTerminator(t[7..]))
    || (|t| > 8 && t[..8] == "https://" && NoTerminator(t[8..]))
  }

  /** Length of the `http://` or `https://` that starts at position i of s; 0 when neither does. */
  function SchemeLength(s: string, i: nat): (n: nat)
    ensures n == 0 || n == 7 || n == 8
    ensures n == 7 ==> i + 7 <= |s| && s[i..i + 7] == "http://"
    ensures n == 8 ==> i + 8 <= |s| && s[i..i + 8] == "https://"
    ensures n == 0 ==> (!(i + 7 <= |s| && s[i..i + 7] == "http://")
                        && !(i + 8 <= |s| && s[i..i + 8] == "https://"))
  {
    if i + 7 <= |s| && s[i..i + 7] == "http://" then 7
    else if i + 8 <= |s| && s[i..i + 8] == "https://" then 8
    else 0
  }

  /** The pattern matches at position i: a scheme followed by at least one non-terminator. */
  predicate MatchAt(s: string, i: nat)
    ensures MatchAt(s, i) <==>
              || (i + 7 < |s| && s[i..i + 7] == "http://" && !IsTerminator(s[i + 7]))
              || (i + 8 < |s| && s[i..i + 8] == "https://" && !IsTerminator(s[i + 8]))
  {
    var n := SchemeLength(s, i);
    n > 0 && i + n < |s| && !IsTerminator(s[i + n])
  }

  /** Where the greedy `[^\s"'<>]+` that starts at j stops. */
  function RunEnd(s: string, j: nat): (e: nat)
    requires j <= |s|
    ensures j <= e <= |s|
    ensures e == |s| || IsTerminator(s[e])
    ensures forall k :: j <= k < e ==> !IsTerminator(s[k])
    decreases |s| - j
  {
    if j == |s| || IsTerminator(s[j]) then j else RunEnd(s, j + 1)
  }

  /** The half-open range [start, end) of s that one match occupies. */
  datatype Span = Span(start: nat, end: nat)

  /** The match that starts at a position where MatchAt holds. */
  function MatchSpan(s: string, i: nat): (m: Span)
    requires MatchAt(s, i)
    ensures m.start == i && i + 7 < m.end <= |s|
    ensures IsUrlToken(s[m.start..m.end])
    ensures m.end == |s| || IsTerminator(s[m.end])
  {
    var n := SchemeLength(s, i);
    var e := RunEnd(s, i + n);
    TokenOfMatch(s, i, n, e);
    Span(i, e)
  }

  lemma TokenOfMatch(s: string, i: nat, n: nat, e: nat)
    requires n == 7 || n == 8
    requires i + n < e <= |s|
    requires n == 7 ==> s[i..i + 7] == "http://"
    requires n == 8 ==> s[i..i + 8] == "https://"
    requires forall k :: i + n <= k < e ==> !IsTerminator(s[k])
    ensures IsUrlToken(s[i..e])
  {
    var t := s[i..e];
    assert t[..n] == s[i..i + n];
    assert forall k :: 0 <= k < |t[n..]| ==> t[n..][k] == s[i + n + k];
  }

  /** Some match lies over position p. */
  predicate Covered(spans: seq<Span>, p: nat) {
    exists k :: 0 <= k < |spans| && spans[k].start <= p < spans[k].end
  }

  /**
   * The matches `re.findall` finds in s[i..]: try the pattern at i; on a
   * match take it whole and go on after it, otherwise move on by one.
   */
  function ScanFrom(s: string, i: nat): (r: seq<Span>)
    requires i <= |s|
    ensures forall k :: 0 <= k < |r| ==> i <= r[k].start < r[k].end <= |s|
    ensures 8 * |r| <= |s| - i
    decreases |s| - i
  {
    if i == |s| then []
    else if MatchAt(s, i) then [MatchSpan(s, i)] + ScanFrom(s, MatchSpan(s, i).end)
    else ScanFrom(s, i + 1)
  }

  /** Every span is a whole greedy match that starts at or after i. */
  predicate AreMatches(s: string, i: nat, r: seq<Span>) {
    forall k :: 0 <= k < |r| ==> i <= r[k].start && MatchAt(s, r[k].start) && r[k] == MatchSpan(s, r[k].start)
  }

  /** The spans are in order and do not overlap. */
  predicate InOrder(r: seq<Span>) {
    forall k :: 0 < k < |r| ==> r[k - 1].end <= r[k].start
  }

  /** No position of s[i..] where the pattern matches is left uncovered. */
  predicate Leftmost(s: string, i: nat, r: seq<Span>) {
    forall p :: i <= p < |s| && MatchAt(s, p) ==> Covered(r, p)
  }

  lemma {:induction false} ScanFromAreMatches(s: string, i: nat)
    requires i <= |s|
    ensures AreMatches(s, i, ScanFrom(s, i))
    decreases |s| - i
  {
    if i < |s| {
      if MatchAt(s, i) {
        var m := MatchSpan(s, i);
        var rest := ScanFrom(s, m.end);
        ScanFromAreMatches(s, m.end);
        var r := [m] + rest;
        assert ScanFrom(s, i) == r;
        forall k | 0 <= k < |r|
          ensures i <= r[k].start && MatchAt(s, r[k].start) && r[k] == MatchSpan(s, r[k].start)
        {
          if k > 0 { assert r[k] == rest[k - 1]; }
        }
      } else {
        ScanFromAreMatches(s, i + 1);
      }
    }
  }

  lemma {:induction false} ScanFromInOrder(s: string, i: nat)
    requires i <= |s|
    ensures InOrder(ScanFrom(s, i))
    ensures forall k :: 0 <= k < |ScanFrom(s, i)| ==> i <= ScanFrom(s, i)[k].start
    decreases |s| - i
  {
    if i < |s| {
      if MatchAt(s, i) {
        var m := MatchSpan(s, i);
        var rest := ScanFrom(s, m.end);
        ScanFromInOrder(s, m.end);
        var r := [m] + rest;
        assert ScanFrom(s, i) == r;
        forall k | 0 < k < |r| ensures r[k - 1].end <= r[k].start && i <= r[k].start {
          assert r[k] == rest[k - 1];
          if k > 1 { assert r[k - 1] == rest[k - 2]; }
        }
      } else {
        ScanFromInOrder(s, i + 1);
      }
    }
  }

  lemma {:induction false} ScanFromLeftmost(s: string, i: nat)
    requires i <= |s|
    ensures Leftmost(s, i, ScanFrom(s, i))
    decreases |s| - i
  {
    if i < |s| {
      if MatchAt(s, i) {
        var m := MatchSpan(s, i);
        var rest := ScanFrom(s, m.end);
        ScanFromLeftmost(s, m.end);
        var r := [m] + rest;
        assert ScanFrom(s, i) == r;
        forall p | i <= p < |s| && MatchAt(s, p) ensures Covered(r, p) {
          if p < m.end {
            assert r[0].start <= p < r[0].end;
          } else {
            assert Covered(rest, p);
            var k :| 0 <= k < |rest| && rest[k].start <= p < rest[k].end;
            assert r[k + 1] == rest[k];
          }
        }
      } else {
        ScanFromLeftmost(s, i + 1);
        forall p | i <= p < |s| && MatchAt(s, p) ensures Covered(ScanFrom(s, i), p) {
          assert p != i;
        }
      }
    }
  }

  lemma ScanFromCorrect(s: string, i: nat)
    requires i <= |s|
    ensures AreMatches(s, i, ScanFrom(s, i))
    ensures InOrder(ScanFrom(s, i))
    ensures Leftmost(s, i, ScanFrom(s, i))
  {
    ScanFromAreMatches(s, i);
    ScanFromInOrder(s, i);
    ScanFromLeftmost(s, i);
  }

  /** The strings `re.findall(r'https?://[^\s"\'<>]+', s)` returns, in order. */
  function FindAll(s: string): (urls: seq<string>)
    ensures 8 * |urls| <= |s|
  {
    var sp := ScanFrom(s, 0);
    seq(|sp|, k requires 0 <= k < |sp| => s[sp[k].start..sp[k].end])
  }

  /** Every string findall returns is a whole match of the pattern. */
  lemma FindAllAreTokens(s: string)
    ensures forall k :: 0 <= k < |FindAll(s)| ==> IsUrlToken(FindAll(s)[k])
  {
    ScanFromCorrect(s, 0);
  }

  /**
   * FindAll is exactly findall: its k-th result is the text of the k-th
   * match; the matches are in order and do not overlap; each one ends at
   * the end of s or at a terminator (greedy); and the pattern matches at
   * no position that no returned match covers (leftmost).
   */
  lemma FindAllIsLeftmostGreedy(s: string)
    ensures |FindAll(s)| == |ScanFrom(s, 0)|
    ensures forall k :: 0 <= k < |FindAll(s)| ==>
              var m := ScanFrom(s, 0)[k];
              m.start < m.end <= |s| && FindAll(s)[k] == s[m.start..m.end]
              && (m.end == |s| || IsTerminator(s[m.end]))
    ensures forall k :: 0 < k < |ScanFrom(s, 0)| ==> ScanFrom(s, 0)[k - 1].end <= ScanFrom(s, 0)[k].start
    ensures forall p :: 0 <= p < |s| && !Covered(ScanFrom(s, 0), p) ==> !MatchAt(s, p)
  {
    ScanFromCorrect(s, 0);
  }

  /** A match has a scheme, at least one character after `://`, and no whitespace, quote or angle bracket. */
  lemma UrlTokenShape(t: string)
    requires IsUrlToken(t)
    ensures |t| >= 8 && (t[..7] == "http://" || t[..8] == "https://")
    ensures NoTerminator(t)
  {
  }
}
