/** What the two text scans find, in terms of the records, the alias rows and the words of the text. */
module ScanFacts {
  import opened DerivedAliases
  import opened Labels
  import opened ScanText
  import opened Seqs
  import opened Text
  import opened TokenRuns
  import opened Wrappers

  // ---------------------------------------------------------------- the words of a text

  /** A word character that is no space, a plus or a number sign. */
  ghost predicate InWord(a: Alphabet, c: char) {
    !IsSpace(c) && (a.word(c) || c == '+' || c == '#')
  }

  /** The longest stretches of such characters. */
  ghost function Stretches(a: Alphabet, s: string): (ws: seq<string>)
    ensures s != "" && InWord(a, s[0]) ==> ws != []
  {
    if s == "" then []
    else if !InWord(a, s[0]) then Stretches(a, s[1..])
    else if s[1..] == "" || !InWord(a, s[1]) then [[s[0]]] + Stretches(a, s[1..])
    else [[s[0]] + Stretches(a, s[1..])[0]] + Stretches(a, s[1..])[1..]
  }

  lemma {:induction false} StretchFirst(a: Alphabet, w: string, rest: string)
    requires w != "" && forall i :: 0 <= i < |w| ==> InWord(a, w[i])
    requires rest == "" || !InWord(a, rest[0])
    ensures Stretches(a, w + rest) == [w] + Stretches(a, rest)
  {
    var s := w + rest;
    assert s[0] == w[0];
    if |w| == 1 {
      assert s[1..] == rest && w == [s[0]];
    } else {
      assert s[1..] == w[1..] + rest && s[1] == w[1];
      StretchFirst(a, w[1..], rest);
      assert w == [s[0]] + w[1..];
    }
  }

  lemma FirstWordOfBlank(a: Alphabet, s: string)
    requires s != "" && InWord(a, s[0])
    ensures var w := FirstWord(Blank(a, s));
            && w != "" && |w| <= |s| && w == s[..|w|] && (forall i :: 0 <= i < |w| ==> InWord(a, w[i]))
            && (|w| < |s| ==> !InWord(a, s[|w|]))
            && Blank(a, s) == w + Blank(a, s[|w|..])
  {
    var b := Blank(a, s);
    FirstWordSplits(b);
    var w := FirstWord(b);
    forall i | 0 <= i < |w|
      ensures s[i] == w[i] && InWord(a, w[i])
    {
      assert w[i] == b[i] && w[i] in w;
    }
  }

  lemma {:induction false} WordsAreStretches(a: Alphabet, s: string)
    ensures Words(Blank(a, s)) == Stretches(a, s)
    decreases |s|
  {
    var b := Blank(a, s);
    if s == "" {
    } else if !InWord(a, s[0]) {
      assert b[1..] == Blank(a, s[1..]);
      WordsSkipSpaces(b);
      WordsSkipSpaces(b[1..]);
      WordsAreStretches(a, s[1..]);
    } else {
      FirstWordOfBlank(a, s);
      var w := FirstWord(b);
      var rest := s[|w|..];
      assert forall i :: 0 <= i < |w| ==> !IsSpace(w[i]);
      assert rest != "" ==> Blank(a, rest)[0] == ' ' || IsSpace(rest[0]);
      WordsAfter(w, Blank(a, rest));
      WordsAreStretches(a, rest);
      StretchFirst(a, w, rest);
      assert s == w + rest;
    }
  }

  lemma {:induction false} StretchesOfLStrip(a: Alphabet, s: string)
    ensures Stretches(a, LStrip(s)) == Stretches(a, s)
  {
    if s != "" && IsSpace(s[0]) {
      StretchesOfLStrip(a, s[1..]);
    }
  }

  lemma {:induction false} StretchesBeforeSpace(a: Alphabet, s: string, c: char)
    requires !InWord(a, c)
    ensures Stretches(a, s + [c]) == Stretches(a, s)
  {
    if s != "" {
      assert (s + [c])[1..] == s[1..] + [c];
      StretchesBeforeSpace(a, s[1..], c);
    } else {
      assert ([c])[1..] == "";
    }
  }

  lemma {:induction false} StretchesOfRStrip(a: Alphabet, s: string)
    ensures Stretches(a, RStrip(s)) == Stretches(a, s)
  {
    if s != "" && IsSpace(s[|s| - 1]) {
      StretchesOfRStrip(a, s[..|s| - 1]);
      StretchesBeforeSpace(a, s[..|s| - 1], s[|s| - 1]);
      assert s == s[..|s| - 1] + [s[|s| - 1]];
    }
  }

  /** The tokens of a text are the longest stretches of word characters, plus and number signs of its folding. */
  lemma TokensAreStretches(a: Alphabet, text: string)
    ensures Tokens(a, text) == Stretches(a, a.fold(text))
  {
    WordsAreStretches(a, Strip(a.fold(text)));
    StretchesOfRStrip(a, LStrip(a.fold(text)));
    StretchesOfLStrip(a, a.fold(text));
  }

  // ---------------------------------------------------------------- who wrote a key first

  /** One of the record's labels normalizes to this key. */
  ghost predicate HasLabel(a: Alphabet, r: Record, key: string) {
    exists i :: 0 <= i < |r.labels| && Normalize(a, r.labels[i]) == key
  }

  /** The first record with a label of this key has this id. */
  ghost predicate WroteFirst(a: Alphabet, records: seq<Record>, key: string, id: Id) {
    && key != ""
    && exists n :: && 0 <= n < |records| && records[n].id == id && HasLabel(a, records[n], key)
                   && forall m :: 0 <= m < n ==> !HasLabel(a, records[m], key)
  }

  lemma {:induction false} FirstOfTwo(x: seq<Term>, y: seq<Term>, key: string)
    ensures FirstWriter(x + y, key) == if FirstWriter(x, key).Some? then FirstWriter(x, key) else FirstWriter(y, key)
  {
    if y == [] {
      assert x + y == x;
    } else {
      FirstOfTwo(x, y[..|y| - 1], key);
      assert (x + y)[..|x + y| - 1] == x + y[..|y| - 1];
    }
  }

  lemma {:induction false} WriterAmong(terms: seq<Term>, key: string, id: Id)
    requires forall t :: t in terms ==> t.id == id
    ensures FirstWriter(terms, key) == if key != "" && exists t :: t in terms && t.key == key then Some(id) else None
  {
    if terms != [] {
      var front, last := terms[..|terms| - 1], terms[|terms| - 1];
      WriterAmong(front, key, id);
      assert terms == front + [last];
    }
  }

  lemma WriterOfRecord(a: Alphabet, r: Record, key: string)
    ensures FirstWriter(LabelledOf(a, r), key) == if key != "" && HasLabel(a, r, key) then Some(r.id) else None
  {
    var terms := LabelledOf(a, r);
    WriterAmong(terms, key, r.id);
    if HasLabel(a, r, key) {
      var i :| 0 <= i < |r.labels| && Normalize(a, r.labels[i]) == key;
      assert terms[i].key == key && terms[i] in terms;
    }
  }

  lemma {:induction false} FirstWriterIff(a: Alphabet, records: seq<Record>, key: string)
    ensures FirstWriter(Labelled(a, records), key).None? ==>
              key == "" || forall n :: 0 <= n < |records| ==> !HasLabel(a, records[n], key)
    ensures FirstWriter(Labelled(a, records), key).Some? ==>
              WroteFirst(a, records, key, FirstWriter(Labelled(a, records), key).value)
  {
    if records != [] {
      var front, last := records[..|records| - 1], records[|records| - 1];
      FirstWriterIff(a, front, key);
      FirstOfTwo(Labelled(a, front), LabelledOf(a, last), key);
      WriterOfRecord(a, last, key);
      assert forall n :: 0 <= n < |front| ==> front[n] == records[n];
    }
  }

  lemma FirstIsOne(a: Alphabet, records: seq<Record>, key: string, x: Id, y: Id)
    requires WroteFirst(a, records, key, x) && WroteFirst(a, records, key, y)
    ensures x == y
  {
    var n :| && 0 <= n < |records| && records[n].id == x && HasLabel(a, records[n], key)
             && forall m :: 0 <= m < n ==> !HasLabel(a, records[m], key);
    var n' :| && 0 <= n' < |records| && records[n'].id == y && HasLabel(a, records[n'], key)
              && forall m :: 0 <= m < n' ==> !HasLabel(a, records[m], key);
    assert !(n < n') && !(n' < n);
  }

  /** The index gives a key to a skill exactly when the first record with such a label is that skill's. */
  lemma IndexIff(a: Alphabet, records: seq<Record>, exact: ExactIndex, order: seq<string>, key: string, id: Id)
    requires IsExact(Labelled(a, records), exact, order)
    ensures key in exact && exact[key] == id <==> WroteFirst(a, records, key, id)
  {
    FirstWriterIff(a, records, key);
    if WroteFirst(a, records, key, id) && key in exact {
      FirstIsOne(a, records, key, id, exact[key]);
    }
  }

  // ---------------------------------------------------------------- what is found

  /** Long enough and not one of the terms that mean too many things. */
  ghost predicate WorthScanning(key: string) {
    |key| >= 3 && key !in AMBIGUOUS_SCAN_TERMS
  }

  /** The words of the key stand in the text, in a row. */
  ghost predicate StandsIn(words: seq<string>, text: seq<string>) {
    exists before, after :: text == before + words + after
  }

  lemma StandsIsRun(words: seq<string>, text: seq<string>)
    ensures StandsIn(words, text) <==> IsRun(words, text)
  {
    if before, after :| text == before + words + after {
      assert RunAt(words, |before|, text);
    }
    if IsRun(words, text) {
      var j :| 0 <= j <= |text| && RunAt(words, j, text);
      assert text == text[..j] + words + text[j + |words|..];
    }
  }

  /** A skill a record wrote first under this key, and the text has it. */
  ghost predicate RecordMatch(a: Alphabet, records: seq<Record>, text: string, key: string, id: Id) {
    WroteFirst(a, records, key, id) && WorthScanning(key) && StandsIn(Words(key), Tokens(a, text))
  }

  lemma MemoryMatchIff(a: Alphabet, records: seq<Record>, exact: ExactIndex, order: seq<string>, text: string, t: Term)
    requires IsExact(Labelled(a, records), exact, order) && NormalKeys(a, exact)
    ensures t in MemoryMatches(a, exact, text) <==> RecordMatch(a, records, text, t.key, t.id)
  {
    IndexIff(a, records, exact, order, t.key, t.id);
    StandsIsRun(Words(t.key), Tokens(a, text));
    if t.key in exact {
      KeyFoundInMemory(a, text, t.key);
    }
  }

  /** One hit for each skill with a match, and that is a longest match of the skill; longer ones first. */
  ghost predicate BestHits(hits: seq<ScanHit>, matches: (string, Id) -> bool) {
    && (forall h :: h in hits ==> matches(h.matched, h.id))
    && (forall key, id: Id :: matches(key, id) ==> exists h :: h in hits && h.id == id && |h.matched| >= |key|)
    && (forall i, j :: 0 <= i < j < |hits| ==> hits[i].id != hits[j].id && |hits[i].matched| >= |hits[j].matched|)
  }

  lemma ScanIsBest(hits: seq<ScanHit>, matched: iset<Term>, matches: (string, Id) -> bool)
    requires IsScan(hits, matched)
    requires forall key, id: Id :: Term(key, id) in matched <==> matches(key, id)
    ensures BestHits(hits, matches)
  {
    BySkillHoldsTheHits(hits);
    forall h | h in hits
      ensures matches(h.matched, h.id)
    {
      assert Term(h.matched, h.id) in matched;
    }
    forall key, id: Id | matches(key, id)
      ensures exists h :: h in hits && h.id == id && |h.matched| >= |key|
    {
      assert Covered(hits, Term(key, id));
      assert ScanHit(id, BySkill(hits)[id]) in hits;
    }
  }

  /**
   The in-memory scan: a skill is hit exactly when some label it was the first to write has three
   characters or more, is not ambiguous, and stands in the text word for word; with a longest such label.
   */
  lemma MemoryHitsAre(a: Alphabet, records: seq<Record>, exact: ExactIndex, order: seq<string>, text: string,
                      hits: seq<ScanHit>)
    requires IsExact(Labelled(a, records), exact, order) && NormalKeys(a, exact)
    requires IsScan(hits, MemoryMatches(a, exact, text))
    ensures BestHits(hits, (key, id: Id) => RecordMatch(a, records, text, key, id))
  {
    forall key, id: Id
      ensures Term(key, id) in MemoryMatches(a, exact, text) <==> RecordMatch(a, records, text, key, id)
    {
      MemoryMatchIff(a, records, exact, order, text, Term(key, id));
    }
    ScanIsBest(hits, MemoryMatches(a, exact, text), (key, id: Id) => RecordMatch(a, records, text, key, id));
  }

  /** A row of an active concept, not a derived alias, whose key is one to six words in a row of the text's. */
  ghost predicate RowMatch(a: Alphabet, rows: set<AliasRow>, text: string, key: string, id: Id) {
    AliasRow(key, id, false, true) in rows && WorthScanning(key) && UpToSixWords(key, Tokens(a, text))
  }

  ghost predicate UpToSixWords(key: string, text: seq<string>) {
    exists words :: 1 <= |words| <= 6 && key == Join(" ", words) && StandsIn(words, text)
  }

  lemma WordsAreGram(key: string, words: seq<string>, text: seq<string>)
    requires 1 <= |words| <= 6 && key == Join(" ", words) && StandsIn(words, text)
    ensures IsShortGram(text, key)
  {
    StandsIsRun(words, text);
    var j :| 0 <= j <= |text| && RunAt(words, j, text);
    assert IsGram(text, |words|, j, key);
  }

  lemma ShortGramIff(key: string, text: seq<string>)
    ensures IsShortGram(text, key) <==> UpToSixWords(key, text)
  {
    if IsShortGram(text, key) {
      var n: nat, j: nat :| 1 <= n <= SCAN_MAX_NGRAM_TOKENS && j <= |text| && IsGram(text, n, j, key);
      var words := text[j..j + n];
      assert RunAt(words, j, text);
      StandsIsRun(words, text);
    }
    if words :| 1 <= |words| <= 6 && key == Join(" ", words) && StandsIn(words, text) {
      WordsAreGram(key, words, text);
    }
  }

  lemma RowMatchIff(a: Alphabet, rows: set<AliasRow>, text: string, key: string, id: Id)
    ensures Term(key, id) in RowMatches(rows, Tokens(a, text)) <==> RowMatch(a, rows, text, key, id)
  {
    ShortGramIff(key, Tokens(a, text));
  }

  /** The database scan: the same over the alias rows, with labels of at most six words. */
  lemma RowHitsAre(a: Alphabet, rows: set<AliasRow>, text: string, hits: seq<ScanHit>)
    requires IsScan(hits, RowMatches(rows, Tokens(a, text)))
    ensures BestHits(hits, (key, id: Id) => RowMatch(a, rows, text, key, id))
  {
    forall key, id: Id
      ensures Term(key, id) in RowMatches(rows, Tokens(a, text)) <==> RowMatch(a, rows, text, key, id)
    {
      RowMatchIff(a, rows, text, key, id);
    }
    ScanIsBest(hits, RowMatches(rows, Tokens(a, text)), (key, id: Id) => RowMatch(a, rows, text, key, id));
  }
}
