/**
 normalize_label and str.split (app/skills/normalize.py), over an abstract alphabet: which characters
 are word characters, and what NFKC with case folding does to a text, are parameters.
 */
module Labels {
  import opened Text

  datatype Alphabet = Alphabet(word: char -> bool, fold: string -> string)

  predicate Kept(a: Alphabet, c: char) {
    a.word(c) || IsSpace(c) || c == '+' || c == '#'
  }

  /** Everything that is not kept becomes a space. */
  function Blank(a: Alphabet, s: string): string {
    seq(|s|, i requires 0 <= i < |s| => if Kept(a, s[i]) then s[i] else ' ')
  }

  lemma LStripShortens(s: string)
    ensures |LStrip(s)| <= |s|
    ensures s != "" && IsSpace(s[0]) ==> |LStrip(s)| < |s|
    ensures LStrip(s) != "" ==> !IsSpace(LStrip(s)[0])
  {
    var k := LStripSplits(s);
  }

  /** Every run of spaces becomes one blank. */
  function Collapse(s: string): string
    decreases |s|
  {
    if s == "" then ""
    else if IsSpace(s[0]) then LStripShortens(s); " " + Collapse(LStrip(s))
    else [s[0]] + Collapse(s[1..])
  }

  function Normalize(a: Alphabet, text: string): string {
    Strip(Collapse(Blank(a, Strip(a.fold(text)))))
  }

  /** The longest prefix without a space. */
  function FirstWord(s: string): string {
    if s == "" || IsSpace(s[0]) then "" else [s[0]] + FirstWord(s[1..])
  }

  lemma {:induction false} FirstWordSplits(s: string)
    ensures |FirstWord(s)| <= |s| && FirstWord(s) == s[..|FirstWord(s)|]
    ensures forall c :: c in FirstWord(s) ==> !IsSpace(c)
    ensures |FirstWord(s)| < |s| ==> IsSpace(s[|FirstWord(s)|])
    ensures s != "" && !IsSpace(s[0]) ==> FirstWord(s) != ""
  {
    if s != "" && !IsSpace(s[0]) {
      FirstWordSplits(s[1..]);
      assert s == [s[0]] + s[1..];
    }
  }

  /** str.split(): the maximal runs of non-spaces. */
  function Words(s: string): seq<string>
    decreases |s|
  {
    LStripShortens(s);
    var t := LStrip(s);
    if t == "" then []
    else
      FirstWordSplits(t);
      [FirstWord(t)] + Words(t[|FirstWord(t)|..])
  }

  predicate IsWord(w: string) {
    w != "" && forall i :: 0 <= i < |w| ==> !IsSpace(w[i])
  }

  predicate AreWords(ws: seq<string>) {
    forall i :: 0 <= i < |ws| ==> IsWord(ws[i])
  }

  lemma {:induction false} SplitGivesWords(s: string)
    ensures AreWords(Words(s))
    decreases |s|
  {
    LStripShortens(s);
    var t := LStrip(s);
    if t != "" {
      FirstWordSplits(t);
      assert forall i :: 0 <= i < |FirstWord(t)| ==> FirstWord(t)[i] in FirstWord(t);
      SplitGivesWords(t[|FirstWord(t)|..]);
    }
  }

  lemma Unit<T>(none: seq<T>, s: seq<T>)
    requires none == []
    ensures none + s == s == s + none
  {
  }

  lemma {:induction false} RStripAppend(x: string, y: string)
    requires RStrip(y) != ""
    ensures RStrip(x + y) == x + RStrip(y)
  {
    if IsSpace(y[|y| - 1]) {
      RStripAppend(x, y[..|y| - 1]);
      assert (x + y)[..|x + y| - 1] == x + y[..|y| - 1];
    }
  }

  lemma {:induction false} CollapseWord(w: string, rest: string)
    requires forall i :: 0 <= i < |w| ==> !IsSpace(w[i])
    ensures Collapse(w + rest) == w + Collapse(rest)
  {
    if w == "" {
      assert w + rest == rest;
    } else {
      CollapseWord(w[1..], rest);
      assert (w + rest)[1..] == w[1..] + rest;
      assert [w[0]] + (w[1..] + Collapse(rest)) == w + Collapse(rest);
    }
  }

  lemma {:induction false} FirstWordOf(w: string, rest: string)
    requires forall i :: 0 <= i < |w| ==> !IsSpace(w[i])
    requires rest == "" || IsSpace(rest[0])
    ensures FirstWord(w + rest) == w
  {
    if w == "" {
      assert w + rest == rest;
    } else {
      FirstWordOf(w[1..], rest);
      assert (w + rest)[1..] == w[1..] + rest;
    }
  }

  lemma WordsAfter(w: string, rest: string)
    requires IsWord(w) && (rest == "" || IsSpace(rest[0]))
    ensures Words(w + rest) == [w] + Words(rest)
  {
    FirstWordOf(w, rest);
    assert LStrip(w + rest) == w + rest;
    assert (w + rest)[|w|..] == rest;
  }

  lemma WordsSkipSpaces(s: string)
    ensures Words(LStrip(s)) == Words(s)
  {
    LStripShortens(s);
    assert LStrip(LStrip(s)) == LStrip(s);
  }

  /** A word alone, and a word before more words. */
  lemma CollapseLast(w: string, rest: string)
    requires IsWord(w) && LStrip(rest) == ""
    ensures Strip(Collapse(w + rest)) == w
  {
    CollapseWord(w, rest);
    if rest == "" {
      StripAfterWord(w, "");
    } else {
      assert Collapse(LStrip(rest)) == "";
      StripAfterWord(w, " ");
    }
  }

  lemma StripAfterWord(w: string, tail: string)
    requires IsWord(w) && forall c :: c in tail ==> IsSpace(c)
    ensures Strip(w + tail) == w
  {
    StripPadded("", w, tail);
    Unit("", w);
  }

  lemma CollapseMore(w: string, rest: string)
    requires IsWord(w) && (rest == "" || IsSpace(rest[0])) && LStrip(rest) != ""
    requires Strip(Collapse(LStrip(rest))) != ""
    ensures Strip(Collapse(w + rest)) == w + " " + Strip(Collapse(LStrip(rest)))
  {
    LStripShortens(rest);
    CollapseWord(w, rest);
    var y := Collapse(LStrip(rest));
    assert y[0] == LStrip(rest)[0] && LStrip(y) == y;
    assert Collapse(w + rest) == (w + " ") + y;
    assert LStrip((w + " ") + y) == (w + " ") + y;
    RStripAppend(w + " ", y);
  }

  /** Substituting, collapsing and stripping is joining the words with single blanks. */
  lemma {:induction false} CollapseJoinsWords(s: string)
    ensures Strip(Collapse(s)) == Join(" ", Words(s))
    decreases |s|
  {
    LStripShortens(s);
    if s == "" {
    } else if IsSpace(s[0]) {
      var t := LStrip(s);
      CollapseJoinsWords(t);
      WordsSkipSpaces(s);
      assert (" " + Collapse(t))[1..] == Collapse(t);
    } else {
      FirstWordSplits(s);
      var w, rest := FirstWord(s), s[|FirstWord(s)|..];
      assert forall i :: 0 <= i < |w| ==> w[i] in w;
      assert s == w + rest;
      LStripShortens(rest);
      WordsAfter(w, rest);
      WordsSkipSpaces(rest);
      if LStrip(rest) == "" {
        CollapseLast(w, rest);
      } else {
        var ws := Words(rest);
        CollapseJoinsWords(LStrip(rest));
        SplitGivesWords(rest);
        assert Join(" ", ws) != "" by {
          assert IsWord(ws[0]);
        }
        CollapseMore(w, rest);
        assert ([w] + ws)[1..] == ws;
      }
    }
  }

  /** The tokens of a text. */
  function Tokens(a: Alphabet, text: string): seq<string> {
    Words(Blank(a, Strip(a.fold(text))))
  }

  /** A normalized text is its tokens joined by single blanks. */
  lemma NormalizeJoinsTokens(a: Alphabet, text: string)
    ensures Normalize(a, text) == Join(" ", Tokens(a, text)) && AreWords(Tokens(a, text))
  {
    CollapseJoinsWords(Blank(a, Strip(a.fold(text))));
    SplitGivesWords(Blank(a, Strip(a.fold(text))));
  }

  /** split() undoes join. */
  lemma {:induction false} WordsOfJoin(ws: seq<string>)
    requires AreWords(ws)
    ensures Words(Join(" ", ws)) == ws
  {
    if ws != [] {
      var w := ws[0];
      var rest := if |ws| == 1 then "" else " " + Join(" ", ws[1..]);
      assert Join(" ", ws) == w + rest;
      WordsAfter(w, rest);
      WordsOfJoin(ws[1..]);
      if |ws| > 1 {
        assert rest[1..] == Join(" ", ws[1..]);
        assert LStrip(rest) == LStrip(rest[1..]);
      }
      assert Words(rest) == ws[1..];
      assert [w] + ws[1..] == ws;
    }
  }

  /** The tokens of a normalized text are the tokens of the text. */
  lemma SplitNormalized(a: Alphabet, text: string)
    ensures Words(Normalize(a, text)) == Tokens(a, text)
  {
    NormalizeJoinsTokens(a, text);
    WordsOfJoin(Tokens(a, text));
  }

  lemma {:induction false} WordsKeep(s: string)
    ensures forall w, c :: w in Words(s) && c in w ==> c in s && !IsSpace(c)
    decreases |s|
  {
    LStripShortens(s);
    var t := LStrip(s);
    if t != "" {
      var k := LStripSplits(s);
      FirstWordSplits(t);
      WordsKeep(t[|FirstWord(t)|..]);
    }
  }

  lemma {:induction false} JoinKeeps(ws: seq<string>)
    ensures forall c :: c in Join(" ", ws) ==> c == ' ' || exists w :: w in ws && c in w
  {
    if |ws| > 1 {
      JoinKeeps(ws[1..]);
    }
  }

  /** Normalizing is idempotent wherever folding leaves the normalized text alone. */
  lemma NormalizeIdempotent(a: Alphabet, text: string)
    requires a.fold(Normalize(a, text)) == Normalize(a, text)
    ensures Normalize(a, Normalize(a, text)) == Normalize(a, text)
  {
    var key := Normalize(a, text);
    var blanked := Blank(a, Strip(a.fold(text)));
    NormalizeJoinsTokens(a, text);
    WordsKeep(blanked);
    JoinKeeps(Tokens(a, text));
    StripTrims(Collapse(blanked));
    TrimmedStrip(key);
    forall i | 0 <= i < |key|
      ensures Kept(a, key[i])
    {
      assert key[i] in key;
      if key[i] != ' ' {
        var w :| w in Tokens(a, text) && key[i] in w;
        assert key[i] in blanked;
      }
    }
    assert Blank(a, key) == key;
    CollapseJoinsWords(key);
    SplitNormalized(a, text);
  }

  /** Folding works on each side of a space separately, and makes no tokens out of nothing. */
  ghost predicate SpacesSeparate(a: Alphabet) {
    && Tokens(a, "") == []
    && forall s, c, t :: IsSpace(c) ==> Tokens(a, s + [c] + t) == Tokens(a, s) + Tokens(a, t)
  }

  lemma SpaceSplits(a: Alphabet, s: string, c: char, t: string)
    requires SpacesSeparate(a) && IsSpace(c)
    ensures Tokens(a, s + [c] + t) == Tokens(a, s) + Tokens(a, t)
  {
  }

  lemma SpaceInFront(a: Alphabet, c: char, t: string)
    requires SpacesSeparate(a) && IsSpace(c)
    ensures Tokens(a, [c] + t) == Tokens(a, t)
  {
    SpaceSplits(a, "", c, t);
    Unit("", [c]);
    Unit(Tokens(a, ""), Tokens(a, t));
  }

  lemma SpaceBehind(a: Alphabet, s: string, c: char)
    requires SpacesSeparate(a) && IsSpace(c)
    ensures Tokens(a, s + [c]) == Tokens(a, s)
  {
    SpaceSplits(a, s, c, "");
    Unit("", s + [c]);
    Unit(Tokens(a, ""), Tokens(a, s));
  }

  lemma {:induction false} TokensOfLStrip(a: Alphabet, s: string)
    requires SpacesSeparate(a)
    ensures Tokens(a, LStrip(s)) == Tokens(a, s)
  {
    if s != "" && IsSpace(s[0]) {
      TokensOfLStrip(a, s[1..]);
      SpaceInFront(a, s[0], s[1..]);
      assert s == [s[0]] + s[1..];
    }
  }

  lemma {:induction false} TokensOfRStrip(a: Alphabet, s: string)
    requires SpacesSeparate(a)
    ensures Tokens(a, RStrip(s)) == Tokens(a, s)
  {
    if s != "" && IsSpace(s[|s| - 1]) {
      TokensOfRStrip(a, s[..|s| - 1]);
      SpaceBehind(a, s[..|s| - 1], s[|s| - 1]);
      assert s == s[..|s| - 1] + [s[|s| - 1]];
    }
  }

  /** Stripping first makes no difference to the normalized text. */
  lemma NormalizeOfStrip(a: Alphabet, s: string)
    requires SpacesSeparate(a)
    ensures Tokens(a, Strip(s)) == Tokens(a, s) && Normalize(a, Strip(s)) == Normalize(a, s)
  {
    TokensOfLStrip(a, s);
    TokensOfRStrip(a, LStrip(s));
    NormalizeJoinsTokens(a, s);
    NormalizeJoinsTokens(a, Strip(s));
  }
}
