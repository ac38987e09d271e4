/** What the alias rows of the ESCO importer hold, in terms of the concepts and the curated file. */
module EscoFacts {
  import opened Wrappers
  import opened DerivedAliases
  import opened EscoAliases

  /** A real entry is a concept's name, as preferred, or one of its alternative labels, that has a key. */
  lemma {:induction false} RealEntriesAre(lex: Lexicon, concepts: seq<Concept>, e: Entry)
    ensures e in RealEntries(lex, concepts) <==>
              && lex.norm(e.alias) != ""
              && exists c :: c in concepts && e.id == c.id
                             && ((e.kind == Preferred && e.alias == c.name) || (e.kind == Alt && e.alias in c.alts))
  {
    if concepts != [] {
      var front, last := concepts[..|concepts| - 1], concepts[|concepts| - 1];
      RealEntriesAre(lex, front, e);
      NonBlankMembership(lex, LabelsOf(last));
      LabelsOfMembership(last);
      assert concepts == front + [last];
    }
  }

  /** A curated offer is an alias the file gives a concept of the taxonomy. */
  lemma {:induction false} OffersAre(known: set<Id>, curated: seq<CuratedAlias>, e: Entry)
    ensures e in CuratedOffers(known, curated) <==>
              && e.kind == Curated && e.id in known
              && exists o :: o in curated && o.id == e.id && e.alias in o.aliases
  {
    if curated != [] {
      var front, last := curated[..|curated| - 1], curated[|curated| - 1];
      OffersAre(known, front, e);
      OffersOfOne(last, e);
      assert curated == front + [last];
    }
  }

  lemma OffersOfOne(o: CuratedAlias, e: Entry)
    ensures e in OffersOf(o) <==> e.kind == Curated && e.id == o.id && e.alias in o.aliases
  {
    if e.kind == Curated && e.id == o.id && e.alias in o.aliases {
      var i :| 0 <= i < |o.aliases| && o.aliases[i] == e.alias;
      assert OffersOf(o)[i] == e;
    }
  }

  /** A text's derived key is that of its bare name, when that has more than two characters and is not ambiguous. */
  lemma DerivedKeyIff(lex: Lexicon, text: string, key: string)
    ensures DerivedKey(lex, text) == Some(key) <==>
              lex.bare(text).Some? && lex.norm(lex.bare(text).value) == key && |key| > 2 && key !in AMBIGUOUS_SCAN_TERMS
  {
  }

  /** Some entry of this kind gives the concept the key. */
  ghost predicate OfKind(lex: Lexicon, entries: seq<Entry>, k: (Id, string), kind: AliasType) {
    exists e :: e in entries && e.id == k.0 && lex.norm(e.alias) == k.1 && e.kind == kind
  }

  /** The alias is that of the first entry of this kind that gives the concept the key. */
  ghost predicate FirstOfKind(lex: Lexicon, entries: seq<Entry>, k: (Id, string), kind: AliasType, alias: string) {
    exists i :: && 0 <= i < |entries| && entries[i] == Entry(k.0, kind, alias) && lex.norm(alias) == k.1
                && forall j :: 0 <= j < i && entries[j].id == k.0 && lex.norm(entries[j].alias) == k.1 ==>
                                 entries[j].kind != kind
  }

  /**
   A row's kind is the best that gives the concept the key: preferred before curated before alternative
   before derived; and its alias is that of the first entry of that kind.
   */
  lemma RowKind(lex: Lexicon, entries: seq<Entry>, k: (Id, string), row: (AliasType, string))
    requires RowOfLeader(lex, entries, k, row)
    ensures row.0 == if OfKind(lex, entries, k, Preferred) then Preferred
                     else if OfKind(lex, entries, k, Curated) then Curated
                     else if OfKind(lex, entries, k, Alt) then Alt
                     else Derived
    ensures FirstOfKind(lex, entries, k, row.0, row.1)
  {
    var i :| 0 <= i < |entries| && entries[i] == Entry(k.0, row.0, row.1) && lex.norm(row.1) == k.1
             && Leads(lex, entries, i);
    assert entries[i] in entries && OfKind(lex, entries, k, row.0);
    forall kind | OfKind(lex, entries, k, kind)
      ensures Priority(row.0) <= Priority(kind)
    {
      var e :| e in entries && e.id == k.0 && lex.norm(e.alias) == k.1 && e.kind == kind;
      LeaderIsBest(lex, entries, k, row, e);
    }
    forall j | 0 <= j < i && entries[j].id == k.0 && lex.norm(entries[j].alias) == k.1
      ensures entries[j].kind != row.0
    {
      assert SameRow(lex, entries[i], entries[j]);
    }
  }
}
