/** Python's strip and join, and code-point order, on strings. */
module Text {

  /** str.isspace on one character. */
  predicate IsSpace(c: char) {
    || '\U{9}' <= c <= '\U{d}'
    || '\U{1c}' <= c <= ' '
    || c == '\U{85}' || c == '\U{a0}' || c == '\U{1680}'
    || '\U{2000}' <= c <= '\U{200a}'
    || c == '\U{2028}' || c == '\U{2029}' || c == '\U{202f}' || c == '\U{205f}' || c == '\U{3000}'
  }

  /** The characters str.splitlines breaks on. */
  predicate IsLineBreak(c: char) {
    || '\U{a}' <= c <= '\U{d}'
    || '\U{1c}' <= c <= '\U{1e}'
    || c == '\U{85}' || c == '\U{2028}' || c == '\U{2029}'
  }

  predicate SingleLine(s: string) {
    forall i :: 0 <= i < |s| ==> !IsLineBreak(s[i])
  }

  function LStrip(s: string): string {
    if s != "" && IsSpace(s[0]) then LStrip(s[1..]) else s
  }

  function RStrip(s: string): string {
    if s != "" && IsSpace(s[|s| - 1]) then RStrip(s[..|s| - 1]) else s
  }

  function Strip(s: string): string {
    RStrip(LStrip(s))
  }

  /** No space at either end. */
  predicate Trimmed(s: string) {
    s != "" ==> !IsSpace(s[0]) && !IsSpace(s[|s| - 1])
  }

  /** LStrip drops a prefix of spaces. */
  lemma {:induction false} LStripSplits(s: string) returns (k: nat)
    ensures k <= |s| && LStrip(s) == s[k..]
    ensures forall i :: 0 <= i < k ==> IsSpace(s[i])
    ensures k < |s| ==> !IsSpace(s[k])
  {
    k := 0;
    if s != "" && IsSpace(s[0]) {
      var j := LStripSplits(s[1..]);
      k := j + 1;
      assert s[1..][j..] == s[k..];
      assert forall i :: 0 < i < k ==> s[i] == s[1..][i - 1];
    }
  }

  lemma {:induction false} RStripSplits(s: string) returns (k: nat)
    ensures k <= |s| && RStrip(s) == s[..k]
    ensures forall i :: k <= i < |s| ==> IsSpace(s[i])
    ensures k > 0 ==> !IsSpace(s[k - 1])
  {
    k := |s|;
    if s != "" && IsSpace(s[|s| - 1]) {
      k := RStripSplits(s[..|s| - 1]);
      assert s[..|s| - 1][..k] == s[..k];
    }
  }

  /** strip() is the slice between the first and the last non-space. */
  lemma StripSplits(s: string) returns (lo: nat, hi: nat)
    ensures lo <= hi <= |s| && Strip(s) == s[lo..hi]
    ensures forall i :: 0 <= i < lo || hi <= i < |s| ==> IsSpace(s[i])
    ensures lo < hi ==> !IsSpace(s[lo]) && !IsSpace(s[hi - 1])
  {
    lo := LStripSplits(s);
    var k := RStripSplits(s[lo..]);
    hi := lo + k;
    assert s[lo..][..k] == s[lo..hi];
    forall i | hi <= i < |s|
      ensures IsSpace(s[i])
    {
      assert s[i] == s[lo..][i - lo];
    }
    if k > 0 {
      assert s[lo..][k - 1] == s[hi - 1];
    }
  }

  lemma StripTrims(s: string)
    ensures Trimmed(Strip(s))
    ensures forall c :: c in Strip(s) ==> c in s
  {
    var lo, hi := StripSplits(s);
  }

  lemma TrimmedStrip(s: string)
    requires Trimmed(s)
    ensures Strip(s) == s
  {
  }

  /** Spaces around a trimmed text are exactly what strip removes. */
  lemma StripPadded(left: string, s: string, right: string)
    requires Trimmed(s)
    requires forall c :: c in left || c in right ==> IsSpace(c)
    ensures Strip(left + s + right) == s
  {
    var text := left + s + right;
    forall i | 0 <= i < |left|
      ensures IsSpace(text[i])
    {
      assert left[i] in left;
    }
    forall i | |left| + |s| <= i < |text|
      ensures IsSpace(text[i])
    {
      assert right[i - |left| - |s|] in right;
    }
    var lo, hi := StripSplits(text);
    if s != "" {
      assert text[|left|] == s[0] && text[|left| + |s| - 1] == s[|s| - 1];
      assert lo == |left| && hi == |left| + |s|;
    }
    assert text[|left|..|left| + |s|] == s;
  }

  function Join(sep: string, parts: seq<string>): string {
    if parts == [] then ""
    else if |parts| == 1 then parts[0]
    else parts[0] + sep + Join(sep, parts[1..])
  }

  /** Code-point order, as Python compares strings. */
  predicate LexLeq(a: string, b: string) {
    a == "" || (b != "" && (a[0] < b[0] || (a[0] == b[0] && LexLeq(a[1..], b[1..]))))
  }

  lemma {:induction false} LexLeqTotal(a: string, b: string)
    ensures LexLeq(a, b) || LexLeq(b, a)
  {
    if a != "" && b != "" && a[0] == b[0] {
      LexLeqTotal(a[1..], b[1..]);
    }
  }

  lemma {:induction false} LexLeqAntisymmetric(a: string, b: string)
    requires LexLeq(a, b) && LexLeq(b, a)
    ensures a == b
  {
    if a != "" && b != "" {
      LexLeqAntisymmetric(a[1..], b[1..]);
      assert a == [a[0]] + a[1..] && b == [b[0]] + b[1..];
    }
  }

  lemma {:induction false} LexLeqTransitive(a: string, b: string, c: string)
    requires LexLeq(a, b) && LexLeq(b, c)
    ensures LexLeq(a, c)
  {
    if a != "" && b != "" && c != "" && a[0] == b[0] == c[0] {
      LexLeqTransitive(a[1..], b[1..], c[1..]);
    }
  }
}
