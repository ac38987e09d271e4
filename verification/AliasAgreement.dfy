/**
 The two computations of derived aliases side by side: the importer's alias rows and the index the
 linker builds when it loads the same taxonomy (app/skills/importers/esco.py, app/skills/linker.py).
 */
module AliasAgreement {
  import opened Wrappers
  import opened DerivedAliases
  import opened EscoAliases
  import Labels
  import ScanText

  /** The labels of a concept as the linker loads them. */
  function AllLabels(c: Concept): seq<string> { [c.name] + c.alts }

  /** The taxonomy as the linker walks it for derived aliases. */
  function SkillsOf(concepts: seq<Concept>): seq<Skill> {
    seq(|concepts|, i requires 0 <= i < |concepts| => Skill(concepts[i].id, AllLabels(concepts[i])))
  }

  /** The taxonomy as the linker walks it for its exact index. */
  function RecordsOf(concepts: seq<Concept>): seq<ScanText.Record> {
    seq(|concepts|, i requires 0 <= i < |concepts| => ScanText.Record(concepts[i].id, AllLabels(concepts[i])))
  }

  /** A label that normalizes to nothing has no bare name that normalizes to something. */
  ghost predicate BlankHasNoBareName(lex: Lexicon) {
    forall text :: lex.norm(text) == "" ==> DerivedKey(lex, text).None?
  }

  /** Both sides normalize labels by normalize_label. */
  ghost predicate Normalizes(lex: Lexicon, a: Labels.Alphabet) {
    forall text :: lex.norm(text) == Labels.Normalize(a, text)
  }

  // ---------------------------------------------------------------- the occupied keys

  ghost predicate HasLabel(lex: Lexicon, concepts: seq<Concept>, key: string) {
    exists c, text :: c in concepts && text in AllLabels(c) && lex.norm(text) == key
  }

  ghost predicate HasTerm(labelled: seq<ScanText.Term>, key: string) {
    exists t :: t in labelled && t.key == key
  }

  /** A key has a first writer exactly when some label has it and it is not empty. */
  lemma {:induction false} FirstWriterExists(labelled: seq<ScanText.Term>, key: string)
    ensures ScanText.FirstWriter(labelled, key).Some? <==> key != "" && HasTerm(labelled, key)
  {
    if labelled != [] {
      var front, last := labelled[..|labelled| - 1], labelled[|labelled| - 1];
      FirstWriterExists(front, key);
      assert labelled == front + [last];
      if HasTerm(front, key) {
        var t :| t in front && t.key == key;
        assert t in labelled;
      } else if last.key == key {
        assert last in labelled;
      }
    }
  }

  lemma TermsOfRecord(a: Labels.Alphabet, record: ScanText.Record, key: string)
    ensures HasTerm(ScanText.LabelledOf(a, record), key)
            <==> exists text :: text in record.labels && Labels.Normalize(a, text) == key
  {
    var terms := ScanText.LabelledOf(a, record);
    if t :| t in terms && t.key == key {
      var i :| 0 <= i < |terms| && terms[i] == t;
      assert record.labels[i] in record.labels;
    }
    if text :| text in record.labels && Labels.Normalize(a, text) == key {
      var i :| 0 <= i < |record.labels| && record.labels[i] == text;
      assert terms[i].key == key && terms[i] in terms;
    }
  }

  lemma HasTermConcat(x: seq<ScanText.Term>, y: seq<ScanText.Term>, key: string)
    ensures HasTerm(x + y, key) <==> HasTerm(x, key) || HasTerm(y, key)
  {
    if t :| t in x && t.key == key {
      assert t in x + y;
    }
    if t :| t in y && t.key == key {
      assert t in x + y;
    }
  }

  lemma HasLabelAppend(lex: Lexicon, concepts: seq<Concept>, last: Concept, key: string)
    ensures HasLabel(lex, concepts + [last], key) <==>
              HasLabel(lex, concepts, key) || exists text :: text in AllLabels(last) && lex.norm(text) == key
  {
    if HasLabel(lex, concepts, key) {
      var c, text :| c in concepts && text in AllLabels(c) && lex.norm(text) == key;
      assert c in concepts + [last];
    }
    if text :| text in AllLabels(last) && lex.norm(text) == key {
      assert last in concepts + [last];
    }
  }

  /** The linker meets exactly the labels of the concepts. */
  lemma {:induction false} TermsAreLabels(lex: Lexicon, a: Labels.Alphabet, concepts: seq<Concept>, key: string)
    requires Normalizes(lex, a)
    ensures HasTerm(ScanText.Labelled(a, RecordsOf(concepts)), key) <==> HasLabel(lex, concepts, key)
  {
    if concepts != [] {
      var front, last := concepts[..|concepts| - 1], concepts[|concepts| - 1];
      var records := RecordsOf(concepts);
      TermsAreLabels(lex, a, front, key);
      assert records[..|records| - 1] == RecordsOf(front);
      assert concepts == front + [last];
      TermsOfRecord(a, records[|records| - 1], key);
      HasTermConcat(ScanText.Labelled(a, RecordsOf(front)), ScanText.LabelledOf(a, records[|records| - 1]), key);
      HasLabelAppend(lex, front, last, key);
    }
  }

  /** The importer's real entries have exactly the non-empty keys of the concepts' labels. */
  lemma RealKeysAreLabels(lex: Lexicon, concepts: seq<Concept>, key: string)
    ensures HasKey(lex, RealEntries(lex, concepts), key) <==> key != "" && HasLabel(lex, concepts, key)
  {
    var entries := RealEntries(lex, concepts);
    if id :| HasEntry(lex, entries, key, id) {
      var e :| e in entries && e.id == id && lex.norm(e.alias) == key;
      RealEntriesMembership(lex, concepts, id, e.alias);
      var c :| c in concepts && c.id == id && e.alias in [c.name] + c.alts;
      assert e.alias in AllLabels(c);
    }
    if key != "" && HasLabel(lex, concepts, key) {
      var c, text :| c in concepts && text in AllLabels(c) && lex.norm(text) == key;
      RealEntriesMembership(lex, concepts, c.id, text);
      var e :| e in entries && e.id == c.id && e.alias == text;
      assert HasEntry(lex, entries, key, c.id);
    }
  }

  /** Without curated aliases the importer and the linker hold the same keys to be taken. */
  lemma SameOccupiedKeys(lex: Lexicon, a: Labels.Alphabet, concepts: seq<Concept>, exact: ScanText.ExactIndex,
                         order: seq<string>)
    requires Normalizes(lex, a) && ScanText.IsExact(ScanText.Labelled(a, RecordsOf(concepts)), exact, order)
    ensures forall key :: key in exact <==> HasKey(lex, RealEntries(lex, concepts), key)
  {
    forall key
      ensures key in exact <==> HasKey(lex, RealEntries(lex, concepts), key)
    {
      var labelled := ScanText.Labelled(a, RecordsOf(concepts));
      assert ScanText.FirstWriter(labelled, key) == if key in exact then Some(exact[key]) else None;
      FirstWriterExists(labelled, key);
      TermsAreLabels(lex, a, concepts, key);
      RealKeysAreLabels(lex, concepts, key);
    }
  }

  // ---------------------------------------------------------------- the claims

  lemma EntryClaimsMembership(entries: seq<Entry>, c: Claim)
    ensures c in EntryClaims(entries) <==> exists e :: e in entries && e.id == c.id && e.alias == c.text
  {
    if e :| e in entries && e.id == c.id && e.alias == c.text {
      var i :| 0 <= i < |entries| && entries[i] == e;
      assert EntryClaims(entries)[i] == c;
    }
    if c in EntryClaims(entries) {
      var i :| 0 <= i < |entries| && EntryClaims(entries)[i] == c;
      assert entries[i] in entries;
    }
  }

  lemma SkillsMembership(concepts: seq<Concept>, id: Id, text: string)
    ensures (exists s :: s in SkillsOf(concepts) && s.id == id && text in s.labels)
            <==> exists c :: c in concepts && c.id == id && text in AllLabels(c)
  {
    if c :| c in concepts && c.id == id && text in AllLabels(c) {
      var i :| 0 <= i < |concepts| && concepts[i] == c;
      assert SkillsOf(concepts)[i] in SkillsOf(concepts);
    }
    if s :| s in SkillsOf(concepts) && s.id == id && text in s.labels {
      var i :| 0 <= i < |concepts| && SkillsOf(concepts)[i] == s;
      assert concepts[i] in concepts;
    }
  }

  /** Importer and linker see the same claims of derived keys. */
  lemma SameClaims(lex: Lexicon, concepts: seq<Concept>, c: Claim)
    requires BlankHasNoBareName(lex) && DerivedKey(lex, c.text).Some?
    ensures c in EntryClaims(RealEntries(lex, concepts)) <==> c in Claims(SkillsOf(concepts))
  {
    EntryClaimsMembership(RealEntries(lex, concepts), c);
    RealEntriesMembership(lex, concepts, c.id, c.text);
    ClaimsMembership(SkillsOf(concepts), c);
    SkillsMembership(concepts, c.id, c.text);
    forall k | k in concepts
      ensures c.text in [k.name] + k.alts <==> c.text in AllLabels(k)
    {
    }
  }

  lemma SameClaimants(lex: Lexicon, concepts: seq<Concept>, key: string)
    requires BlankHasNoBareName(lex)
    ensures Claimants(lex, EntryClaims(RealEntries(lex, concepts)), key)
            == Claimants(lex, Claims(SkillsOf(concepts)), key)
  {
    forall c: Claim | DerivedKey(lex, c.text) == Some(key)
      ensures c in EntryClaims(RealEntries(lex, concepts)) <==> c in Claims(SkillsOf(concepts))
    {
      SameClaims(lex, concepts, c);
    }
  }

  // ---------------------------------------------------------------- agreement

  lemma NothingCurated(lex: Lexicon, concepts: seq<Concept>)
    ensures Owned(lex, concepts, []) == RealEntries(lex, concepts)
  {
    assert CuratedOffers(Ids(concepts), []) == [];
  }

  /**
   Without curated aliases the importer's table and the linker's index, each built from the taxonomy by
   itself, agree: a concept has a derived row for a key if and only if the index derives the key for it.
   */
  lemma ImporterAgreesWithLinker(lex: Lexicon, a: Labels.Alphabet, concepts: seq<Concept>, rows: Rows,
                                 exact: ScanText.ExactIndex, order: seq<string>, linked: map<string, Id>, key: string,
                                 id: Id)
    requires BlankHasNoBareName(lex) && Normalizes(lex, a)
    requires IsAliasTable(lex, Owned(lex, concepts, []), rows)
    requires ScanText.IsExact(ScanText.Labelled(a, RecordsOf(concepts)), exact, order)
    requires IsDerivedIndex(lex, Claims(SkillsOf(concepts)), exact.Keys, linked)
    ensures (id, key) in rows && rows[(id, key)].0 == Derived <==> key in linked && linked[key] == id
  {
    var entries := RealEntries(lex, concepts);
    NothingCurated(lex, concepts);
    SameOccupiedKeys(lex, a, concepts, exact, order);
    SameClaimants(lex, concepts, key);
    assert (key in linked && linked[key] == id) <==> SoleClaimant(lex, entries, key, id) by {
      LinkedIffSole(lex, concepts, exact.Keys, linked, key, id);
    }
    DerivedRowIffSole(lex, concepts, rows, key, id);
  }

  lemma LinkedIffSole(lex: Lexicon, concepts: seq<Concept>, occupied: set<string>, linked: map<string, Id>, key: string,
                      id: Id)
    requires IsDerivedIndex(lex, Claims(SkillsOf(concepts)), occupied, linked)
    requires key in occupied <==> HasKey(lex, RealEntries(lex, concepts), key)
    requires Claimants(lex, EntryClaims(RealEntries(lex, concepts)), key)
            == Claimants(lex, Claims(SkillsOf(concepts)), key)
    ensures key in linked && linked[key] == id <==> SoleClaimant(lex, RealEntries(lex, concepts), key, id)
  {
    var claimants := Claimants(lex, Claims(SkillsOf(concepts)), key);
    if key !in occupied && claimants == {id} {
      assert key in linked && claimants == {linked[key]};
      assert id in {linked[key]};
    }
  }

  lemma DerivedRowIffSole(lex: Lexicon, concepts: seq<Concept>, rows: Rows, key: string, id: Id)
    requires IsAliasTable(lex, RealEntries(lex, concepts), rows)
    ensures (id, key) in rows && rows[(id, key)].0 == Derived <==>
              SoleClaimant(lex, RealEntries(lex, concepts), key, id)
  {
    var entries := RealEntries(lex, concepts);
    RealEntriesAreLabels(lex, concepts);
    if SoleClaimant(lex, entries, key, id) {
      assert id in Claimants(lex, EntryClaims(entries), key);
    }
    if HasEntry(lex, entries, key, id) && (id, key) in rows {
      assert RowOfLeader(lex, entries, (id, key), rows[(id, key)]);
    }
  }
}
