/** The Python string operations the client relies on: `strip()`, `lower()`,
    `startswith`, slicing, splitting at the first separator, and the
    "first n characters plus '...'" truncation the renderer applies. */
module Text {

  /** The characters Python's `str.isspace()` accepts; `str.strip()` with no
      argument removes exactly these from both ends. */
  predicate IsSpace(c: char) {
    || c == ' '
    || ('\t' <= c <= '\r')
    || ('\U{1c}' <= c <= '\U{1f}')
    || c == '\U{85}' || c == '\U{a0}' || c == '\U{1680}'
    || ('\U{2000}' <= c <= '\U{200a}')
    || c == '\U{2028}' || c == '\U{2029}' || c == '\U{202f}'
    || c == '\U{205f}' || c == '\U{3000}'
  }

  /** `s` has no surrounding whitespace. */
  predicate IsStripped(s: string) {
    s == [] || (!IsSpace(s[0]) && !IsSpace(s[|s| - 1]))
  }

  /** Every character of `s` is whitespace. */
  predicate AllSpace(s: string) {
    forall i :: 0 <= i < |s| ==> IsSpace(s[i])
  }

  /** `str.lstrip()`: drops leading whitespace, keeps the rest. */
  function TrimStart(s: string): (r: string)
    ensures |r| <= |s| && r == s[|s| - |r|..]
    ensures r == [] || !IsSpace(r[0])
    ensures AllSpace(s[..|s| - |r|])
  {
    if |s| > 0 && IsSpace(s[0]) then
      var t := s[1..];
      var r := TrimStart(t);
      var k := |t| - |r|;
      assert s[k + 1..] == t[k..];
      var cut := s[..k + 1];
      assert AllSpace(cut) by {
        forall i | 0 < i < |cut| ensures IsSpace(cut[i]) {
          assert cut[i] == t[..k][i - 1];
        }
      }
      r
    else s
  }

  /** `str.rstrip()`: drops trailing whitespace, keeps the rest. */
  function TrimEnd(s: string): (r: string)
    ensures |r| <= |s| && r == s[..|r|]
    ensures r == [] || !IsSpace(r[|r| - 1])
    ensures AllSpace(s[|r|..])
  {
    if |s| > 0 && IsSpace(s[|s| - 1]) then
      var r := TrimEnd(s[..|s| - 1]);
      assert s[|r|..] == s[..|s| - 1][|r|..] + [s[|s| - 1]];
      r
    else s
  }

  /** `r` is a middle slice of `s` and only whitespace was cut on either
      side of it. */
  predicate CutsOnlySpace(s: string, r: string) {
    exists i, j :: 0 <= i <= j <= |s| && r == s[i..j] && AllSpace(s[..i]) && AllSpace(s[j..])
  }

  /** `str.strip()`: the middle of `s` with the surrounding whitespace cut,
      itself without surrounding whitespace. */
  function Strip(s: string): (r: string)
    ensures IsStripped(r)
    ensures CutsOnlySpace(s, r)
    ensures |r| <= |s|
    ensures IsStripped(s) ==> r == s
  {
    var t := TrimStart(s);
    var r := TrimEnd(t);
    assert r != [] ==> r[0] == t[0];
    assert IsStripped(s) ==> t == s && r == s;
    TrimsCutOnlySpace(s);
    r
  }

  /** Trimming both ends cuts only whitespace off either side. */
  lemma TrimsCutOnlySpace(s: string)
    ensures CutsOnlySpace(s, TrimEnd(TrimStart(s)))
  {
    var t := TrimStart(s);
    var r := TrimEnd(t);
    var i := |s| - |t|;
    var j := i + |r|;
    assert t == s[i..];
    assert s[i..j] == r;
    assert s[j..] == t[|r|..];
  }

  /** Two cut points each preceded only by whitespace and each at a
      non-whitespace character are the same point. */
  lemma SameStart(s: string, i: nat, a: nat)
    requires i < |s| && a < |s| && !IsSpace(s[i]) && !IsSpace(s[a])
    requires AllSpace(s[..i]) && AllSpace(s[..a])
    ensures i == a
  {
  }

  /** The mirror image of `SameStart` for the end of a slice. */
  lemma SameEnd(s: string, j: nat, b: nat)
    requires 0 < j <= |s| && 0 < b <= |s| && !IsSpace(s[j - 1]) && !IsSpace(s[b - 1])
    requires AllSpace(s[j..]) && AllSpace(s[b..])
    ensures j == b
  {
  }

  /** A cut that leaves nothing behind cut only whitespace, so a text with
      a non-whitespace character at `k` cannot be cut down to nothing. */
  lemma NoEmptyCut(s: string, i: nat, k: nat)
    requires i <= |s| && AllSpace(s[..i]) && AllSpace(s[i..])
    requires k < |s|
    ensures IsSpace(s[k])
  {
    if k < i { assert s[..i][k] == s[k]; } else { assert s[i..][k - i] == s[k]; }
  }

  /** Two ways of cutting only whitespace off `s` that both leave stripped
      text leave the same text. */
  lemma SameCut(s: string, i: nat, j: nat, a: nat, b: nat)
    requires i <= j <= |s| && AllSpace(s[..i]) && AllSpace(s[j..]) && IsStripped(s[i..j])
    requires a <= b <= |s| && AllSpace(s[..a]) && AllSpace(s[b..]) && IsStripped(s[a..b])
    ensures s[i..j] == s[a..b]
  {
    if i == j {
      if a < b {
        assert s[a..b][0] == s[a];
        NoEmptyCut(s, i, a);
      }
    } else if a == b {
      assert s[i..j][0] == s[i];
      NoEmptyCut(s, a, i);
    } else {
      assert s[i..j][0] == s[i] && s[i..j][j - i - 1] == s[j - 1];
      assert s[a..b][0] == s[a] && s[a..b][b - a - 1] == s[b - 1];
      SameStart(s, i, a);
      SameEnd(s, j, b);
    }
  }

  /** Strip is the only way to cut whitespace off both ends and be left
      with stripped text: `str.strip()` is characterised by its contract. */
  lemma StripUnique(s: string, r: string)
    requires IsStripped(r) && CutsOnlySpace(s, r)
    ensures r == Strip(s)
  {
    var i, j :| 0 <= i <= j <= |s| && r == s[i..j] && AllSpace(s[..i]) && AllSpace(s[j..]);
    var q := Strip(s);
    var a, b :| 0 <= a <= b <= |s| && q == s[a..b] && AllSpace(s[..a]) && AllSpace(s[b..]);
    SameCut(s, i, j, a, b);
  }

  /** Cutting trailing whitespace and then cutting only whitespace again
      still cuts only whitespace. */
  lemma CutMore(s: string, n: nat, r: string)
    requires n <= |s| && AllSpace(s[n..]) && CutsOnlySpace(s[..n], r)
    ensures CutsOnlySpace(s, r)
  {
    var t := s[..n];
    var i, j :| 0 <= i <= j <= |t| && r == t[i..j] && AllSpace(t[..i]) && AllSpace(t[j..]);
    assert r == s[i..j];
    assert s[..i] == t[..i];
    var after := s[j..];
    assert AllSpace(after) by {
      forall k | 0 <= k < |after| ensures IsSpace(after[k]) {
        if j + k < n {
          assert after[k] == t[j..][k];
        } else {
          assert after[k] == s[n..][j + k - n];
        }
      }
    }
  }

  /** A text that starts with a non-whitespace character and has another
      at `k` strips to a prefix reaching past `k`, followed only by
      whitespace. */
  lemma StripKeepsFront(s: string, k: nat) returns (b: nat)
    requires k < |s| && !IsSpace(s[0]) && !IsSpace(s[k])
    ensures k < b <= |s| && Strip(s) == s[..b] && AllSpace(s[b..])
  {
    var q := Strip(s);
    var a: nat, b' :| 0 <= a <= b' <= |s| && q == s[a..b'] && AllSpace(s[..a]) && AllSpace(s[b'..]);
    b := b';
  }

  /** Cutting trailing whitespace and then stripping is stripping: a
      stripped text cut from the front part of `s` is `Strip(s)`. */
  lemma StripOfFront(s: string, n: nat, r: string)
    requires n <= |s| && AllSpace(s[n..]) && IsStripped(r) && CutsOnlySpace(s[..n], r)
    ensures r == Strip(s)
  {
    CutMore(s, n, r);
    StripUnique(s, r);
  }

  /** Slicing `pre + s` past the prefix slices `s`. */
  lemma SlicesAfterPrefix(pre: string, s: string, b: nat)
    requires |pre| <= b <= |pre| + |s|
    ensures (pre + s)[..b][|pre|..] == s[..b - |pre|]
    ensures (pre + s)[b..] == s[b - |pre|..]
  {
  }

  /** When `pre + s` is cut back to its first `b` characters, past `pre`,
      leaving only whitespace behind, a stripped text cut from what follows
      `pre` is `s` stripped. */
  lemma StripAfterPrefix(pre: string, s: string, b: nat, r: string)
    requires |pre| <= b <= |pre| + |s| && AllSpace((pre + s)[b..])
    requires IsStripped(r) && CutsOnlySpace((pre + s)[..b][|pre|..], r)
    ensures r == Strip(s)
  {
    SlicesAfterPrefix(pre, s, b);
    StripOfFront(s, b - |pre|, r);
  }

  /** `str.lower()` on one character, restricted to ASCII letters. */
  function LowerChar(c: char): char {
    if 'A' <= c <= 'Z' then (c as int - 'A' as int + 'a' as int) as char else c
  }

  /** `str.lower()`, restricted to ASCII letters: same length, each
      character lower-cased on its own. */
  function Lower(s: string): (r: string)
    ensures |r| == |s|
    ensures forall i :: 0 <= i < |s| ==> r[i] == LowerChar(s[i])
  {
    if |s| == 0 then [] else [LowerChar(s[0])] + Lower(s[1..])
  }

  /** `s.startswith(p)`. */
  predicate StartsWith(s: string, p: string) {
    |p| <= |s| && s[..|p|] == p
  }

  /** Python's `s[:n]`: the first `n` characters, or all of `s` if shorter. */
  function Take<T>(s: seq<T>, n: nat): (r: seq<T>)
    ensures |r| == if |s| <= n then |s| else n
    ensures r == s[..|r|]
  {
    if |s| <= n then s else s[..n]
  }

  /** `s if len(s) <= n else s[:n] + "..."`. */
  function Truncate(s: string, n: nat): (r: string)
    ensures |r| <= n + 3
    ensures |s| <= n ==> r == s
    ensures |s| > n ==> |r| == n + 3 && r[..n] == s[..n] && r[n..] == "..."
  {
    if |s| <= n then s else s[..n] + "..."
  }

  /** Index of the first occurrence of `c` in `s`. */
  function IndexOf(s: string, c: char): (i: nat)
    requires c in s
    ensures i < |s| && s[i] == c && c !in s[..i]
  {
    if s[0] == c then 0
    else
      var j := IndexOf(s[1..], c);
      assert s[..j + 1] == [s[0]] + s[1..][..j];
      j + 1
  }

  /** `s.split(c, 1)` when `c` occurs in `s`: the text before the first `c`
      and everything after it. */
  function SplitFirst(s: string, c: char): (r: (string, string))
    requires c in s
    ensures s == r.0 + [c] + r.1
    ensures c !in r.0
  {
    var i := IndexOf(s, c);
    assert s == s[..i] + [c] + s[i + 1..];
    (s[..i], s[i + 1..])
  }

  /** Lower-casing commutes with taking a prefix. */
  lemma LowerPrefix(s: string, n: nat)
    requires n <= |s|
    ensures Lower(s)[..n] == Lower(s[..n])
  {
  }

  /** Lower-casing distributes over concatenation. */
  lemma LowerAppend(a: string, b: string)
    ensures Lower(a + b) == Lower(a) + Lower(b)
  {
  }

  /** Lower-casing never turns whitespace into non-whitespace or back. */
  lemma LowerCharKeepsSpace(c: char)
    ensures IsSpace(LowerChar(c)) == IsSpace(c)
  {
  }

  /** Lower-casing commutes with `lstrip()`. */
  lemma {:induction false} LowerTrimStart(s: string)
    ensures Lower(TrimStart(s)) == TrimStart(Lower(s))
    decreases |s|
  {
    if |s| > 0 {
      LowerCharKeepsSpace(s[0]);
      if IsSpace(s[0]) {
        assert Lower(s)[1..] == Lower(s[1..]);
        LowerTrimStart(s[1..]);
      }
    }
  }

  /** Lower-casing commutes with `rstrip()`. */
  lemma {:induction false} LowerTrimEnd(s: string)
    ensures Lower(TrimEnd(s)) == TrimEnd(Lower(s))
    decreases |s|
  {
    if |s| > 0 {
      var n := |s| - 1;
      var ls := Lower(s);
      assert ls[n] == LowerChar(s[n]);
      LowerCharKeepsSpace(s[n]);
      if IsSpace(s[n]) {
        assert ls[..n] == Lower(s[..n]);
        LowerTrimEnd(s[..n]);
        assert TrimEnd(ls) == TrimEnd(ls[..n]);
        assert TrimEnd(s) == TrimEnd(s[..n]);
      } else {
        assert TrimEnd(ls) == ls;
        assert TrimEnd(s) == s;
      }
    }
  }

  /** `s.strip().lower() == s.lower().strip()`. */
  lemma LowerStrip(s: string)
    ensures Lower(Strip(s)) == Strip(Lower(s))
  {
    LowerTrimStart(s);
    LowerTrimEnd(TrimStart(s));
  }

  /** Lower-casing commutes with taking a suffix. */
  lemma LowerDrop(s: string, k: nat)
    requires k <= |s|
    ensures Lower(s[k..]) == Lower(s)[k..]
  {
  }

  /** Stripping twice is stripping once. */
  lemma StripIdempotent(s: string)
    ensures Strip(Strip(s)) == Strip(s)
  {
  }
}
