/** When " key " occurs in " text ": exactly when the key's tokens are a run of the text's tokens. */
module TokenRuns {
  import opened Text
  import opened Labels

  /** Tokens with one blank before, between and after. */
  function Spaced(ws: seq<string>): string {
    if ws == [] then " " else " " + ws[0] + Spaced(ws[1..])
  }

  predicate OccursAt(needle: string, p: nat, haystack: string) {
    p + |needle| <= |haystack| && haystack[p..p + |needle|] == needle
  }

  /** Python's `needle in haystack`. */
  predicate Occurs(needle: string, haystack: string) {
    exists p | 0 <= p <= |haystack| :: OccursAt(needle, p, haystack)
  }

  predicate RunAt(key: seq<string>, j: nat, text: seq<string>) {
    j + |key| <= |text| && text[j..j + |key|] == key
  }

  predicate IsRun(key: seq<string>, text: seq<string>) {
    exists j | 0 <= j <= |text| :: RunAt(key, j, text)
  }

  lemma {:induction false} SpacedJoin(ws: seq<string>)
    requires ws != []
    ensures " " + Join(" ", ws) + " " == Spaced(ws)
  {
    if |ws| > 1 {
      SpacedJoin(ws[1..]);
      assert " " + Join(" ", ws) + " " == " " + ws[0] + (" " + Join(" ", ws[1..]) + " ");
    } else {
      assert ws[1..] == [];
    }
  }

  lemma SpacedShape(ws: seq<string>)
    ensures Spaced(ws) != "" && Spaced(ws)[0] == ' '
    ensures ws != [] ==> |Spaced(ws)| == |ws[0]| + 1 + |Spaced(ws[1..])| && Spaced(ws)[1..][..|ws[0]|] == ws[0]
    ensures ws != [] ==> Spaced(ws)[|ws[0]| + 1..] == Spaced(ws[1..])
  {
  }

  /** Where both start with a blank and a word, the words are equal: the next blank ends both. */
  lemma FirstWordsEqual(v: string, rest: string, w: string, tail: string)
    requires IsWord(v) && IsWord(w)
    requires rest != "" && rest[0] == ' ' && tail != "" && tail[0] == ' '
    requires v + rest <= w + tail
    ensures v == w
  {
    FirstWordOf(v, rest);
    FirstWordOf(w, tail);
    var k := if |v| <= |w| then |v| else |w|;
    assert (v + rest)[k] == (w + tail)[k];
    assert |v| == |w|;
    assert v == (v + rest)[..k] == (w + tail)[..k] == w;
  }

  lemma DropBlank(w: string, s: string)
    ensures (" " + w + s)[1..] == w + s
  {
  }

  lemma SpacedBody(ws: seq<string>)
    requires ws != []
    ensures Spaced(ws)[1..] == ws[0] + Spaced(ws[1..]) && |Spaced(ws)| > 1
  {
    DropBlank(ws[0], Spaced(ws[1..]));
    SpacedShape(ws[1..]);
  }

  lemma LongerIsNotEmpty(text: seq<string>)
    requires |Spaced(text)| > 1
    ensures text != []
  {
  }

  lemma PrefixTails(a: string, b: string, s: string, t: string)
    requires |a| == |s| && a + b <= s + t
    ensures b <= t
  {
    assert (a + b)[|a|..] == b && (s + t)[|a|..] == t;
  }

  /** Padded texts where one begins with the other begin with the same word, and so do the rests. */
  lemma PrefixStep(key: seq<string>, text: seq<string>)
    requires AreWords(key) && AreWords(text) && key != [] && Spaced(key) <= Spaced(text)
    ensures text != [] && key[0] == text[0] && Spaced(key[1..]) <= Spaced(text[1..])
  {
    SpacedBody(key);
    LongerIsNotEmpty(text);
    SpacedBody(text);
    SpacedShape(key[1..]);
    SpacedShape(text[1..]);
    assert Spaced(key)[1..] <= Spaced(text)[1..];
    FirstWordsEqual(key[0], Spaced(key[1..]), text[0], Spaced(text[1..]));
    PrefixTails(key[0], Spaced(key[1..]), text[0], Spaced(text[1..]));
  }

  lemma {:induction false} PrefixOfSpaced(key: seq<string>, text: seq<string>)
    requires AreWords(key) && AreWords(text)
    requires Spaced(key) <= Spaced(text)
    ensures key <= text
  {
    if key != [] {
      PrefixStep(key, text);
      PrefixOfSpaced(key[1..], text[1..]);
      assert key == [key[0]] + key[1..] && text == [text[0]] + text[1..];
    }
  }

  /** The first word of a padded text has no blank in it. */
  lemma NoBlankInFirstWord(text: seq<string>, p: nat)
    requires AreWords(text) && text != [] && 0 < p <= |text[0]|
    ensures p < |Spaced(text)| && Spaced(text)[p] != ' '
  {
    SpacedShape(text);
    assert Spaced(text)[p] == Spaced(text)[1..][..|text[0]|][p - 1];
  }

  /** An occurrence that is not at the front lies in what follows the first word. */
  lemma OccurrenceMovesOn(needle: string, text: seq<string>, p: nat)
    requires AreWords(text) && needle != "" && needle[0] == ' ' && p > 0
    requires OccursAt(needle, p, Spaced(text))
    ensures text != [] && p >= |text[0]| + 1
    ensures OccursAt(needle, p - |text[0]| - 1, Spaced(text[1..]))
  {
    var haystack := Spaced(text);
    assert haystack[p] == haystack[p..p + |needle|][0] == ' ';
    SpacedShape(text);
    assert text != [];
    var k := |text[0]| + 1;
    if p < k {
      NoBlankInFirstWord(text, p);
    }
    OccursLater(needle, p, haystack, k);
  }

  lemma OccursLater(needle: string, p: nat, haystack: string, k: nat)
    requires OccursAt(needle, p, haystack) && k <= p
    ensures OccursAt(needle, p - k, haystack[k..])
  {
    assert haystack[k..][p - k..p - k + |needle|] == haystack[p..p + |needle|];
  }

  lemma {:induction false} OccurrenceIsRun(key: seq<string>, text: seq<string>, p: nat) returns (j: nat)
    requires AreWords(key) && AreWords(text)
    requires OccursAt(Spaced(key), p, Spaced(text))
    ensures RunAt(key, j, text)
    decreases |text|
  {
    if p == 0 {
      PrefixOfSpaced(key, text);
      j := 0;
    } else {
      SpacedShape(key);
      OccurrenceMovesOn(Spaced(key), text, p);
      var i := OccurrenceIsRun(key, text[1..], p - |text[0]| - 1);
      j := i + 1;
      assert text[j..j + |key|] == text[1..][i..i + |key|];
    }
  }

  lemma {:induction false} SpacedPrefix(key: seq<string>, rest: seq<string>)
    ensures Spaced(key) <= Spaced(key + rest)
  {
    if key == [] {
      SpacedShape(rest);
      assert key + rest == rest;
    } else {
      SpacedPrefix(key[1..], rest);
      assert (key + rest)[1..] == key[1..] + rest;
    }
  }

  lemma {:induction false} RunOccurs(key: seq<string>, text: seq<string>, j: nat) returns (p: nat)
    requires RunAt(key, j, text)
    ensures OccursAt(Spaced(key), p, Spaced(text))
    decreases j
  {
    if j == 0 {
      assert text == key + text[|key|..];
      SpacedPrefix(key, text[|key|..]);
      p := 0;
    } else {
      assert text[1..][j - 1..j - 1 + |key|] == text[j..j + |key|];
      var q := RunOccurs(key, text[1..], j - 1);
      SpacedShape(text);
      var k := |text[0]| + 1;
      p := q + k;
      assert Spaced(text)[p..p + |Spaced(key)|] == Spaced(text)[k..][q..q + |Spaced(key)|];
    }
  }

  /** The key lemma: substring search on padded texts is search for a run of tokens. */
  lemma OccursIffRun(key: seq<string>, text: seq<string>)
    requires AreWords(key) && AreWords(text) && key != []
    ensures Occurs(" " + Join(" ", key) + " ", " " + Join(" ", text) + " ") <==> IsRun(key, text)
  {
    var needle, haystack := " " + Join(" ", key) + " ", " " + Join(" ", text) + " ";
    SpacedJoin(key);
    SpacedShape(key);
    if text == [] {
      SpacedShape(key[1..]);
      assert IsWord(key[0]) && |needle| > 2;
      assert haystack == "  ";
    } else {
      SpacedJoin(text);
      if Occurs(needle, haystack) {
        var p :| 0 <= p <= |haystack| && OccursAt(needle, p, haystack);
        var j := OccurrenceIsRun(key, text, p);
      }
      if IsRun(key, text) {
        var j :| 0 <= j <= |text| && RunAt(key, j, text);
        var p := RunOccurs(key, text, j);
      }
    }
  }
}

/** scan_text of the in-memory linker (app/skills/linker.py) and of the database linker (app/skills/pg_linker.py). */
module ScanText {
  import opened DerivedAliases
  import opened Labels
  import opened Seqs
  import opened Text
  import opened TokenRuns
  import opened Wrappers

  const SCAN_MAX_NGRAM_TOKENS: nat := 6

  /** A taxonomy term: a normalized label and the skill it belongs to. */
  datatype Term = Term(key: string, id: Id)

  datatype ScanHit = ScanHit(id: Id, matched: string)

  predicate Scannable(key: string) {
    |key| > 2 && key !in AMBIGUOUS_SCAN_TERMS
  }

  // ---------------------------------------------------------------- what a scan should return

  /** One hit for each skill, longer matches first. */
  ghost predicate HitsOrdered(hits: seq<ScanHit>) {
    forall i, j :: 0 <= i < j < |hits| ==> hits[i].id != hits[j].id && |hits[i].matched| >= |hits[j].matched|
  }

  /** The hits as a map from skill to matched text. */
  ghost function BySkill(hits: seq<ScanHit>): map<Id, string> {
    if hits == [] then map[]
    else BySkill(hits[..|hits| - 1])[hits[|hits| - 1].id := hits[|hits| - 1].matched]
  }

  lemma {:induction false} BySkillHoldsTheHits(hits: seq<ScanHit>)
    requires HitsOrdered(hits)
    ensures forall i :: 0 <= i < |hits| ==> hits[i].id in BySkill(hits) && BySkill(hits)[hits[i].id] == hits[i].matched
    ensures forall id :: id in BySkill(hits) ==> ScanHit(id, BySkill(hits)[id]) in hits
  {
    if hits != [] {
      var front := hits[..|hits| - 1];
      BySkillHoldsTheHits(front);
      assert hits == front + [hits[|hits| - 1]];
      assert forall i :: 0 <= i < |front| ==> hits[i] == front[i];
    }
  }

  /** The term's skill has a hit at least as long. */
  ghost predicate Covered(hits: seq<ScanHit>, t: Term) {
    t.id in BySkill(hits) && |BySkill(hits)[t.id]| >= |t.key|
  }

  /** One hit for every skill that owns a matched term, with one of its longest; longer matches first. */
  ghost predicate IsScan(hits: seq<ScanHit>, matched: iset<Term>) {
    && HitsOrdered(hits)
    && (forall id :: id in BySkill(hits) ==> Term(BySkill(hits)[id], id) in matched)
    && (forall t :: t in matched ==> Covered(hits, t))
  }

  /** Both scans give the same skills with equally long matches. */
  ghost predicate Agree(x: seq<ScanHit>, y: seq<ScanHit>) {
    && BySkill(x).Keys == BySkill(y).Keys
    && (forall id :: id in BySkill(x) ==> |BySkill(x)[id]| == |BySkill(y)[id]|)
  }

  /** Two scans of the same matches agree on the skills and on how much text each one matched. */
  lemma ScansAgree(a: seq<ScanHit>, b: seq<ScanHit>, matched: iset<Term>)
    requires IsScan(a, matched) && IsScan(b, matched)
    ensures Agree(a, b)
  {
    forall id | id in BySkill(a)
      ensures id in BySkill(b) && |BySkill(b)[id]| >= |BySkill(a)[id]|
    {
      assert Covered(b, Term(BySkill(a)[id], id));
    }
    forall id | id in BySkill(b)
      ensures id in BySkill(a) && |BySkill(a)[id]| >= |BySkill(b)[id]|
    {
      assert Covered(a, Term(BySkill(b)[id], id));
    }
  }

  // ---------------------------------------------------------------- taking the first hit of each skill

  /** Every hit is one of these terms. */
  ghost predicate HitsAmong(taken: seq<Term>, hits: seq<ScanHit>) {
    forall id :: id in BySkill(hits) ==> Term(BySkill(hits)[id], id) in taken
  }

  ghost predicate AllCovered(taken: seq<Term>, hits: seq<ScanHit>) {
    forall t :: t in taken ==> Covered(hits, t)
  }

  /** Where a pass stands that has met these matching terms. */
  ghost predicate Picked(taken: seq<Term>, hits: seq<ScanHit>) {
    HitsOrdered(hits) && HitsAmong(taken, hits) && AllCovered(taken, hits)
  }

  ghost predicate LongestFirst(terms: seq<Term>) {
    forall i, j :: 0 <= i < j < |terms| ==> |terms[i].key| >= |terms[j].key|
  }

  /** A term of a skill already hit adds nothing. */
  lemma PickSkips(taken: seq<Term>, hits: seq<ScanHit>, t: Term)
    requires Picked(taken, hits) && t.id in BySkill(hits)
    requires forall x :: x in taken ==> |x.key| >= |t.key|
    ensures Picked(taken + [t], hits)
  {
  }

  /** The first term of a skill is its hit. */
  lemma PickTakes(taken: seq<Term>, hits: seq<ScanHit>, t: Term)
    requires Picked(taken, hits) && t.id !in BySkill(hits)
    requires forall x :: x in taken ==> |x.key| >= |t.key|
    ensures Picked(taken + [t], hits + [ScanHit(t.id, t.key)])
  {
    StillOrdered(taken, hits, t);
    StillAmong(taken, hits, t);
    StillCovered(taken, hits, t);
  }

  lemma StillAmong(taken: seq<Term>, hits: seq<ScanHit>, t: Term)
    requires HitsAmong(taken, hits)
    ensures HitsAmong(taken + [t], hits + [ScanHit(t.id, t.key)])
  {
    BySkillAppend(hits, ScanHit(t.id, t.key));
  }

  lemma StillCovered(taken: seq<Term>, hits: seq<ScanHit>, t: Term)
    requires t.id !in BySkill(hits) && AllCovered(taken, hits)
    ensures AllCovered(taken + [t], hits + [ScanHit(t.id, t.key)])
  {
    BySkillAppend(hits, ScanHit(t.id, t.key));
    forall x | x in taken + [t]
      ensures Covered(hits + [ScanHit(t.id, t.key)], x)
    {
      assert x in taken ==> Covered(hits, x);
    }
  }

  lemma BySkillAppend(hits: seq<ScanHit>, h: ScanHit)
    ensures BySkill(hits + [h]) == BySkill(hits)[h.id := h.matched]
  {
    assert (hits + [h])[..|hits|] == hits;
  }

  lemma StillOrdered(taken: seq<Term>, hits: seq<ScanHit>, t: Term)
    requires HitsOrdered(hits) && HitsAmong(taken, hits) && t.id !in BySkill(hits)
    requires forall x :: x in taken ==> |x.key| >= |t.key|
    ensures HitsOrdered(hits + [ScanHit(t.id, t.key)])
  {
    BySkillHoldsTheHits(hits);
    forall i | 0 <= i < |hits|
      ensures hits[i].id != t.id && |hits[i].matched| >= |t.key|
    {
      assert Term(hits[i].matched, hits[i].id) in taken;
    }
  }

  /** The terms met so far are those of a prefix that pass the test. */
  ghost predicate Met(terms: seq<Term>, n: nat, test: Term -> bool, taken: seq<Term>)
    requires n <= |terms|
  {
    && (forall t :: t in taken ==> test(t) && exists i :: 0 <= i < n && terms[i] == t)
    && (forall i :: 0 <= i < n && test(terms[i]) ==> terms[i] in taken)
  }

  /** Where a pass over a list of non-increasing length stands. */
  ghost predicate PassAt(terms: seq<Term>, n: nat, test: Term -> bool, taken: seq<Term>, hits: seq<ScanHit>,
                         seen: set<Id>)
    requires n <= |terms|
  {
    && seen == BySkill(hits).Keys
    && Met(terms, n, test, taken) && Picked(taken, hits)
  }

  lemma MetStep(terms: seq<Term>, n: nat, test: Term -> bool, taken: seq<Term>)
    requires n < |terms| && Met(terms, n, test, taken)
    ensures Met(terms, n + 1, test, if test(terms[n]) then taken + [terms[n]] else taken)
  {
    var taken' := if test(terms[n]) then taken + [terms[n]] else taken;
    forall t | t in taken'
      ensures test(t) && exists i :: 0 <= i < n + 1 && terms[i] == t
    {
      if t in taken {
        var i :| 0 <= i < n && terms[i] == t;
        assert 0 <= i < n + 1 && terms[i] == t;
      } else {
        assert terms[n] == t;
      }
    }
  }

  lemma MetAreLonger(terms: seq<Term>, n: nat, test: Term -> bool, taken: seq<Term>)
    requires LongestFirst(terms) && n < |terms| && Met(terms, n, test, taken)
    ensures forall x :: x in taken ==> |x.key| >= |terms[n].key|
  {
  }

  /** The next term fails the test, or its skill has its hit already. */
  lemma PassSkips(terms: seq<Term>, n: nat, test: Term -> bool, taken: seq<Term>, hits: seq<ScanHit>, seen: set<Id>)
    requires LongestFirst(terms) && n < |terms| && PassAt(terms, n, test, taken, hits, seen)
    requires terms[n].id in seen || !test(terms[n])
    ensures PassAt(terms, n + 1, test, if test(terms[n]) then taken + [terms[n]] else taken, hits, seen)
  {
    MetStep(terms, n, test, taken);
    MetAreLonger(terms, n, test, taken);
    if test(terms[n]) {
      PickSkips(taken, hits, terms[n]);
    }
  }

  /** The next term is the first of its skill to pass the test. */
  lemma PassTakes(terms: seq<Term>, n: nat, test: Term -> bool, taken: seq<Term>, hits: seq<ScanHit>, seen: set<Id>)
    requires LongestFirst(terms) && n < |terms| && PassAt(terms, n, test, taken, hits, seen)
    requires terms[n].id !in seen && test(terms[n])
    ensures PassAt(terms, n + 1, test, taken + [terms[n]], hits + [ScanHit(terms[n].id, terms[n].key)],
                   seen + {terms[n].id})
  {
    MetStep(terms, n, test, taken);
    MetAreLonger(terms, n, test, taken);
    PickTakes(taken, hits, terms[n]);
    BySkillAppend(hits, ScanHit(terms[n].id, terms[n].key));
  }

  lemma PassDone(terms: seq<Term>, test: Term -> bool, taken: seq<Term>, hits: seq<ScanHit>, seen: set<Id>,
                 matched: iset<Term>)
    requires PassAt(terms, |terms|, test, taken, hits, seen)
    requires forall t :: t in matched <==> t in terms && test(t)
    ensures IsScan(hits, matched)
  {
    forall t
      ensures t in taken <==> t in matched
    {
    }
  }

  // ---------------------------------------------------------------- the in-memory linker

  /** The index of real labels: normalized label to the first skill that wrote it. */
  type ExactIndex = map<string, Id>

  datatype Record = Record(id: Id, labels: seq<string>)

  /** The keys are normalized, non-empty texts. */
  ghost predicate NormalKeys(a: Alphabet, exact: ExactIndex) {
    forall key :: key in exact ==> key != "" && exists text :: Normalize(a, text) == key
  }

  /** The labels in the order the constructor meets them, with their records. */
  function Labelled(a: Alphabet, records: seq<Record>): seq<Term> {
    if records == [] then [] else Labelled(a, records[..|records| - 1]) + LabelledOf(a, records[|records| - 1])
  }

  function LabelledOf(a: Alphabet, record: Record): seq<Term> {
    seq(|record.labels|, i requires 0 <= i < |record.labels| => Term(Normalize(a, record.labels[i]), record.id))
  }

  /** The skill of the first non-blank label with this key. */
  function FirstWriter(labelled: seq<Term>, key: string): Option<Id> {
    if labelled == [] then None
    else
      var earlier := FirstWriter(labelled[..|labelled| - 1], key);
      var last := labelled[|labelled| - 1];
      if earlier.Some? then earlier else if last.key == key && key != "" then Some(last.id) else None
  }

  ghost predicate IsExact(labelled: seq<Term>, exact: ExactIndex, order: seq<string>) {
    && (forall key :: FirstWriter(labelled, key) == if key in exact then Some(exact[key]) else None)
    && NoDuplicates(order)
    && (forall key :: key in order <==> key in exact)
  }

  lemma LabelledNext(a: Alphabet, record: Record, m: nat)
    requires m < |record.labels|
    ensures LabelledOf(a, record)[..m + 1]
            == LabelledOf(a, record)[..m] + [Term(Normalize(a, record.labels[m]), record.id)]
  {
  }

  lemma ExactStep(done: seq<Term>, exact: ExactIndex, order: seq<string>, t: Term)
    requires IsExact(done, exact, order)
    ensures if t.key != "" && t.key !in exact then IsExact(done + [t], exact[t.key := t.id], order + [t.key])
            else IsExact(done + [t], exact, order)
  {
    assert (done + [t])[..|done|] == done;
  }

  method BuildExactIndex(a: Alphabet, records: seq<Record>) returns (exact: ExactIndex, order: seq<string>)
    ensures IsExact(Labelled(a, records), exact, order)
    ensures NormalKeys(a, exact)
  {
    exact, order := map[], [];
    ghost var done: seq<Term> := [];
    for n := 0 to |records|
      invariant done == Labelled(a, records[..n])
      invariant IsExact(done, exact, order) && NormalKeys(a, exact)
    {
      var record := records[n];
      assert records[..n + 1][..n] == records[..n];
      for m := 0 to |record.labels|
        invariant done == Labelled(a, records[..n]) + LabelledOf(a, record)[..m]
        invariant IsExact(done, exact, order) && NormalKeys(a, exact)
      {
        var key := Normalize(a, record.labels[m]);
        ExactStep(done, exact, order, Term(key, record.id));
        LabelledNext(a, record, m);
        done := done + [Term(key, record.id)];
        if key != "" && key !in exact {
          exact, order := exact[key := record.id], order + [key];
        }
      }
      assert LabelledOf(a, record)[..|record.labels|] == LabelledOf(a, record);
    }
    assert records[..|records|] == records;
  }

  predicate LongerFirst(x: Term, y: Term) {
    |x.key| >= |y.key|
  }

  function ScannableTerms(exact: ExactIndex, order: seq<string>): seq<Term>
    requires forall key :: key in order ==> key in exact
  {
    if order == [] then []
    else
      var last := order[|order| - 1];
      ScannableTerms(exact, order[..|order| - 1]) + (if Scannable(last) then [Term(last, exact[last])] else [])
  }

  lemma {:induction false} ScannableTermsMembership(exact: ExactIndex, order: seq<string>)
    requires forall key :: key in order ==> key in exact
    ensures forall t :: t in ScannableTerms(exact, order) <==>
              t.key in order && exact[t.key] == t.id && Scannable(t.key)
  {
    if order != [] {
      ScannableTermsMembership(exact, order[..|order| - 1]);
      assert order == order[..|order| - 1] + [order[|order| - 1]];
    }
  }

  /** The terms of the in-memory index that occur in the text. */
  ghost function MemoryMatches(a: Alphabet, exact: ExactIndex, text: string): iset<Term> {
    iset t: Term | t.key in exact && exact[t.key] == t.id && Scannable(t.key)
                   && Occurs(" " + t.key + " ", " " + Normalize(a, text) + " ")
  }

  method ScanInMemory(a: Alphabet, exact: ExactIndex, order: seq<string>, text: string) returns (hits: seq<ScanHit>)
    requires forall key :: key in order <==> key in exact
    ensures IsScan(hits, MemoryMatches(a, exact, text))
  {
    var terms := Sort(LongerFirst, ScannableTerms(exact, order));
    ScannableTermsMembership(exact, order);
    SortMembers(LongerFirst, ScannableTerms(exact, order));
    SortSorted(LongerFirst, ScannableTerms(exact, order));
    var haystack := " " + Normalize(a, text) + " ";
    ghost var test := (t: Term) => Occurs(" " + t.key + " ", haystack);
    hits := [];
    var seen: set<Id> := {};
    ghost var taken: seq<Term> := [];
    for n := 0 to |terms|
      invariant PassAt(terms, n, test, taken, hits, seen)
    {
      var term := terms[n];
      if term.id in seen {
        PassSkips(terms, n, test, taken, hits, seen);
        taken := if test(term) then taken + [term] else taken;
        continue;
      }
      if Occurs(" " + term.key + " ", haystack) {
        PassTakes(terms, n, test, taken, hits, seen);
        seen, hits, taken := seen + {term.id}, hits + [ScanHit(term.id, term.key)], taken + [term];
      } else {
        PassSkips(terms, n, test, taken, hits, seen);
      }
    }
    PassDone(terms, test, taken, hits, seen, MemoryMatches(a, exact, text));
  }

  // ---------------------------------------------------------------- the database linker

  datatype AliasRow = AliasRow(key: string, id: Id, derived: bool, active: bool)

  predicate IsGram(tokens: seq<string>, n: nat, start: nat, gram: string) {
    start + n <= |tokens| && gram == Join(" ", tokens[start..start + n])
  }

  predicate IsShortGram(tokens: seq<string>, key: string) {
    exists n: nat, start: nat | 1 <= n <= SCAN_MAX_NGRAM_TOKENS && start <= |tokens| :: IsGram(tokens, n, start, key)
  }

  /** The scannable n-grams of up to six tokens. */
  ghost predicate AreCandidates(tokens: seq<string>, candidates: set<string>) {
    forall gram :: gram in candidates <==> Scannable(gram) && IsShortGram(tokens, gram)
  }

  /** The grams of every length below n, and those of length n that start before a place. */
  ghost predicate GramsSoFar(tokens: seq<string>, candidates: set<string>, n: nat, start: nat) {
    && (forall gram :: gram in candidates ==>
          Scannable(gram) && exists k: nat, s: nat :: 1 <= k <= n && IsGram(tokens, k, s, gram))
    && (forall gram, k: nat, s: nat ::
          Scannable(gram) && IsGram(tokens, k, s, gram) && 1 <= k <= n && (k < n || s < start) ==> gram in candidates)
  }

  lemma NextGram(tokens: seq<string>, candidates: set<string>, n: nat, start: nat)
    requires GramsSoFar(tokens, candidates, n, start) && 1 <= n && start + n <= |tokens|
    ensures var gram := Join(" ", tokens[start..start + n]);
            GramsSoFar(tokens, if Scannable(gram) then candidates + {gram} else candidates, n, start + 1)
  {
    assert IsGram(tokens, n, start, Join(" ", tokens[start..start + n]));
  }

  lemma NextLength(tokens: seq<string>, candidates: set<string>, n: nat)
    requires n <= |tokens| && GramsSoFar(tokens, candidates, n, |tokens| - n + 1)
    ensures GramsSoFar(tokens, candidates, n + 1, 0)
  {
    forall gram | gram in candidates
      ensures exists k: nat, s: nat :: 1 <= k <= n + 1 && IsGram(tokens, k, s, gram)
    {
      var k: nat, s: nat :| 1 <= k <= n && IsGram(tokens, k, s, gram);
      assert 1 <= k <= n + 1 && IsGram(tokens, k, s, gram);
    }
  }

  lemma AllGrams(tokens: seq<string>, candidates: set<string>, maxN: nat)
    requires maxN == (if SCAN_MAX_NGRAM_TOKENS < |tokens| then SCAN_MAX_NGRAM_TOKENS else |tokens|)
    requires GramsSoFar(tokens, candidates, maxN + 1, 0)
    requires forall gram :: gram in candidates ==> IsShortGram(tokens, gram)
    ensures AreCandidates(tokens, candidates)
  {
    forall gram | Scannable(gram) && IsShortGram(tokens, gram)
      ensures gram in candidates
    {
      var n: nat, start: nat :| 1 <= n <= SCAN_MAX_NGRAM_TOKENS && start <= |tokens| && IsGram(tokens, n, start, gram);
      assert n <= maxN;
    }
  }

  method NGrams(tokens: seq<string>) returns (candidates: set<string>)
    ensures AreCandidates(tokens, candidates)
  {
    candidates := {};
    var maxN := if SCAN_MAX_NGRAM_TOKENS < |tokens| then SCAN_MAX_NGRAM_TOKENS else |tokens|;
    for n := 1 to maxN + 1
      invariant GramsSoFar(tokens, candidates, n, 0)
      invariant forall gram :: gram in candidates ==> IsShortGram(tokens, gram)
    {
      for start := 0 to |tokens| - n + 1
        invariant GramsSoFar(tokens, candidates, n, start)
        invariant forall gram :: gram in candidates ==> IsShortGram(tokens, gram)
      {
        var gram := Join(" ", tokens[start..start + n]);
        NextGram(tokens, candidates, n, start);
        assert IsGram(tokens, n, start, gram);
        if Scannable(gram) {
          candidates := candidates + {gram};
        }
      }
      NextLength(tokens, candidates, n);
    }
    AllGrams(tokens, candidates, maxN);
  }

  /** The order of the final list: longest alias first, then alias, then concept. */
  predicate HitOrder(x: Term, y: Term) {
    || |x.key| > |y.key|
    || (|x.key| == |y.key| && x.key != y.key && LexLeq(x.key, y.key))
    || (x.key == y.key && x.id <= y.id)
  }

  lemma HitOrderIsTotal()
    ensures TotalPreorder(HitOrder)
  {
    forall x: Term, y: Term
      ensures HitOrder(x, y) || HitOrder(y, x)
    {
      LexLeqTotal(x.key, y.key);
    }
    forall x: Term, y: Term, z: Term | HitOrder(x, y) && HitOrder(y, z)
      ensures HitOrder(x, z)
    {
      if |x.key| == |y.key| == |z.key| && x.key != y.key && y.key != z.key {
        LexLeqTransitive(x.key, y.key, z.key);
        if x.key == z.key {
          LexLeqAntisymmetric(x.key, y.key);
        }
      }
    }
  }

  /** The alias rows the query keeps: real aliases of active concepts among the candidates. */
  function Query(rows: set<AliasRow>, candidates: set<string>): set<Term> {
    set r | r in rows && r.key in candidates && !r.derived && r.active :: Term(r.key, r.id)
  }

  ghost function RowMatches(rows: set<AliasRow>, tokens: seq<string>): iset<Term> {
    iset t: Term | AliasRow(t.key, t.id, false, true) in rows && Scannable(t.key)
                   && IsShortGram(tokens, t.key)
  }

  method ScanRows(a: Alphabet, rows: set<AliasRow>, text: string) returns (hits: seq<ScanHit>)
    ensures IsScan(hits, RowMatches(rows, Tokens(a, text)))
  {
    var tokens := Words(Normalize(a, text));
    SplitNormalized(a, text);
    hits := [];
    if tokens == [] {
      return;
    }
    var candidates := NGrams(tokens);
    if candidates == {} {
      return;
    }
    var found := ListOf(Query(rows, candidates));
    hits := FirstHits(found);
    forall t: Term
      ensures t in RowMatches(rows, tokens) <==> t in found
    {
      assert t in Query(rows, candidates) <==> t.key in candidates && AliasRow(t.key, t.id, false, true) in rows;
    }
    assert RowMatches(rows, tokens) == iset t | t in found;
  }

  /** The final loop over the fetched rows. */
  method FirstHits(found: seq<Term>) returns (hits: seq<ScanHit>)
    ensures IsScan(hits, iset t | t in found)
  {
    var terms := Sort(HitOrder, found);
    HitOrderIsTotal();
    SortMembers(HitOrder, found);
    SortSorted(HitOrder, found);
    hits := [];
    var seen: set<Id> := {};
    ghost var test := (t: Term) => true;
    ghost var taken: seq<Term> := [];
    for n := 0 to |terms|
      invariant PassAt(terms, n, test, taken, hits, seen)
    {
      var term := terms[n];
      if term.id in seen {
        PassSkips(terms, n, test, taken, hits, seen);
        taken := taken + [term];
        continue;
      }
      PassTakes(terms, n, test, taken, hits, seen);
      seen, hits, taken := seen + {term.id}, hits + [ScanHit(term.id, term.key)], taken + [term];
    }
    PassDone(terms, test, taken, hits, seen, iset t | t in found);
  }

  // ---------------------------------------------------------------- the two scans agree

  /** The alias table holds the index: every key has one owner, the one the index has. */
  ghost predicate Corresponds(exact: ExactIndex, rows: set<AliasRow>) {
    forall key, id :: AliasRow(key, id, false, true) in rows && key != "" <==> key in exact && exact[key] == id
  }

  /** A key of the index is found in memory exactly when its tokens are a run of the text's. */
  lemma KeyFoundInMemory(a: Alphabet, text: string, key: string)
    requires key != "" && exists source :: Normalize(a, source) == key
    ensures AreWords(Words(key)) && Words(key) != [] && key == Join(" ", Words(key))
    ensures Occurs(" " + key + " ", " " + Normalize(a, text) + " ") <==> IsRun(Words(key), Tokens(a, text))
  {
    var source :| Normalize(a, source) == key;
    SplitNormalized(a, source);
    NormalizeJoinsTokens(a, source);
    NormalizeJoinsTokens(a, text);
    OccursIffRun(Words(key), Tokens(a, text));
  }

  lemma GramIsRun(tokens: seq<string>, key: string, n: nat, start: nat)
    requires AreWords(tokens) && IsGram(tokens, n, start, key)
    ensures |Words(key)| == n && RunAt(Words(key), start, tokens)
  {
    WordsOfJoin(tokens[start..start + n]);
  }

  lemma RunIsGram(tokens: seq<string>, key: string, j: nat)
    requires key == Join(" ", Words(key)) && RunAt(Words(key), j, tokens)
    ensures IsGram(tokens, |Words(key)|, j, key)
  {
  }

  /** A key is an n-gram of the text exactly when its tokens are a run of at most six of them. */
  lemma KeyIsGram(tokens: seq<string>, key: string)
    requires AreWords(tokens) && Words(key) != [] && key == Join(" ", Words(key))
    ensures IsShortGram(tokens, key) <==> IsRun(Words(key), tokens) && |Words(key)| <= SCAN_MAX_NGRAM_TOKENS
  {
    if IsShortGram(tokens, key) {
      var n: nat, start: nat :| 1 <= n <= SCAN_MAX_NGRAM_TOKENS && start <= |tokens| && IsGram(tokens, n, start, key);
      GramIsRun(tokens, key, n, start);
    }
    if IsRun(Words(key), tokens) && |Words(key)| <= SCAN_MAX_NGRAM_TOKENS {
      var j :| 0 <= j <= |tokens| && RunAt(Words(key), j, tokens);
      RunIsGram(tokens, key, j);
    }
  }

  /** The database scan sees exactly the in-memory matches of at most six tokens. */
  lemma RowMatchesAreShortMatches(a: Alphabet, exact: ExactIndex, rows: set<AliasRow>, text: string, t: Term)
    requires NormalKeys(a, exact) && Corresponds(exact, rows)
    ensures t in RowMatches(rows, Tokens(a, text))
            <==> t in MemoryMatches(a, exact, text) && |Words(t.key)| <= SCAN_MAX_NGRAM_TOKENS
  {
    if t.key in exact && exact[t.key] == t.id {
      KeyFoundInMemory(a, text, t.key);
      NormalizeJoinsTokens(a, text);
      KeyIsGram(Tokens(a, text), t.key);
    }
  }

  /** No scannable key is longer than six tokens. */
  ghost predicate ShortKeys(exact: ExactIndex) {
    forall key :: key in exact && Scannable(key) ==> |Words(key)| <= SCAN_MAX_NGRAM_TOKENS
  }

  lemma ScanTextsAgree(a: Alphabet, exact: ExactIndex, rows: set<AliasRow>, text: string, inMemory: seq<ScanHit>,
                       fromRows: seq<ScanHit>)
    requires NormalKeys(a, exact) && Corresponds(exact, rows) && ShortKeys(exact)
    requires IsScan(inMemory, MemoryMatches(a, exact, text))
    requires IsScan(fromRows, RowMatches(rows, Tokens(a, text)))
    ensures Agree(inMemory, fromRows)
  {
    forall t: Term
      ensures t in RowMatches(rows, Tokens(a, text)) <==> t in MemoryMatches(a, exact, text)
    {
      RowMatchesAreShortMatches(a, exact, rows, text, t);
    }
    assert RowMatches(rows, Tokens(a, text)) == MemoryMatches(a, exact, text);
    ScansAgree(inMemory, fromRows, MemoryMatches(a, exact, text));
  }

  /** A scannable key of more than six tokens makes the scans differ on its own text. */
  lemma LongKeyDisagrees(a: Alphabet, exact: ExactIndex, rows: set<AliasRow>, text: string, inMemory: seq<ScanHit>,
                         fromRows: seq<ScanHit>)
    requires NormalKeys(a, exact) && Corresponds(exact, rows)
    requires var key := Normalize(a, text); key in exact && Scannable(key) && |Words(key)| > SCAN_MAX_NGRAM_TOKENS
    requires IsScan(inMemory, MemoryMatches(a, exact, text))
    requires IsScan(fromRows, RowMatches(rows, Tokens(a, text)))
    ensures !Agree(inMemory, fromRows)
  {
    var key := Normalize(a, text);
    var tokens := Tokens(a, text);
    KeyFoundInMemory(a, text, key);
    SplitNormalized(a, text);
    assert RunAt(tokens, 0, tokens);
    var t := Term(key, exact[key]);
    assert t in MemoryMatches(a, exact, text);
    assert Covered(inMemory, t);
    if t.id in BySkill(fromRows) {
      var m := Term(BySkill(fromRows)[t.id], t.id);
      RowMatchesAreShortMatches(a, exact, rows, text, m);
      ShortMatchIsShorter(a, exact, text, m);
    }
  }

  lemma ShortMatchIsShorter(a: Alphabet, exact: ExactIndex, text: string, m: Term)
    requires NormalKeys(a, exact) && m in MemoryMatches(a, exact, text)
    requires |Words(m.key)| < |Tokens(a, text)|
    ensures |m.key| < |Normalize(a, text)|
  {
    KeyFoundInMemory(a, text, m.key);
    NormalizeJoinsTokens(a, text);
    var tokens, run := Tokens(a, text), Words(m.key);
    var j :| 0 <= j <= |tokens| && RunAt(run, j, tokens);
    ProperRunIsShorter(tokens, run, j);
  }

  lemma ProperRunIsShorter(tokens: seq<string>, run: seq<string>, j: nat)
    requires RunAt(run, j, tokens) && 1 <= |run| < |tokens|
    ensures |Join(" ", run)| < |Join(" ", tokens)|
  {
    ShorterRun(tokens, j, |run|);
  }

  lemma {:induction false} JoinAppend(xs: seq<string>, ys: seq<string>)
    requires xs != [] && ys != []
    ensures Join(" ", xs + ys) == Join(" ", xs) + " " + Join(" ", ys)
  {
    if |xs| == 1 {
      assert (xs + ys)[1..] == ys;
    } else {
      JoinAppend(xs[1..], ys);
      assert (xs + ys)[1..] == xs[1..] + ys;
    }
  }

  /** A proper run of tokens joins to a shorter text. */
  lemma ShorterRun(tokens: seq<string>, j: nat, n: nat)
    requires 1 <= n < |tokens| && j + n <= |tokens|
    ensures |Join(" ", tokens[j..j + n])| < |Join(" ", tokens)|
  {
    var before, run, after := tokens[..j], tokens[j..j + n], tokens[j + n..];
    assert tokens == before + (run + after);
    if after != [] {
      JoinAppend(run, after);
    } else {
      assert run + after == run;
    }
    if before != [] {
      JoinAppend(before, run + after);
    } else {
      assert before + (run + after) == run + after;
    }
  }
}
