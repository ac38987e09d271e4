/**
 What the decisions of reconcile_onet mean in terms of the tables it starts from: which concept a source
 is mapped to, with which confidence, which sources found a concept, and which aliases come in.
 */
module ReconcileFacts {
  import opened Wrappers
  import opened Seqs
  import opened ReconcileDecision
  import opened Reconcile
  import LinkDecision

  // ---------------------------------------------------------------- names and owners

  /** A stated name of the source, or a variant of one. */
  ghost predicate MayBeCalled(lex: Lexicon, s: Source, n: string) {
    || n == s.name || n in s.rawNames
    || exists m :: (m == s.name || m in s.rawNames) && n in lex.variants(m)
  }

  /** Some name of the source has this key. */
  ghost predicate HasNameKey(lex: Lexicon, s: Source, key: string) {
    key != "" && exists n :: MayBeCalled(lex, s, n) && lex.norm(n) == key
  }

  /** The concept is active and its normalized name is the key. */
  ghost predicate NamedBy(concepts: Concepts, key: string, c: Id) {
    key != "" && c in concepts && concepts[c].active && concepts[c].normalized == key
  }

  /** The concept has the key by its name or by an alias. */
  ghost predicate LabelledBy(concepts: Concepts, aliases: Aliases, key: string, c: Id) {
    NamedBy(concepts, key, c) || (key != "" && (c, key) in aliases)
  }

  /** The concept has the key of some name of the source. */
  ghost predicate Knows(w: Snapshot, concepts: Concepts, aliases: Aliases, s: Source, c: Id) {
    exists key :: HasNameKey(w.lex, s, key) && LabelledBy(concepts, aliases, key, c)
  }

  /** The snapshot a run takes of these tables. */
  ghost predicate SnapshotOf(w: Snapshot, sources: seq<Source>, concepts: Concepts, aliases: Aliases,
                             mappings: Mappings) {
    && w.existing == MappedSources(mappings, sources)
    && w.names == ActiveNames(concepts) && w.labels == ActiveNames(concepts) + aliases.Keys
  }

  lemma {:induction false} VariantsMembers(lex: Lexicon, names: seq<string>)
    ensures forall n :: n in Variants(lex, names) <==> exists m :: m in names && n in lex.variants(m)
  {
    if names != [] {
      var front, last := names[..|names| - 1], names[|names| - 1];
      VariantsMembers(lex, front);
      assert names == front + [last];
    }
  }

  /** The names of a source have exactly the non-empty keys it may be called by. */
  lemma NameKeys(lex: Lexicon, s: Source)
    ensures forall key :: key in Keys(lex, Names(lex, s)) <==> HasNameKey(lex, s, key)
  {
    var stated := [s.name] + s.rawNames;
    var candidates := stated + Variants(lex, stated);
    VariantsMembers(lex, stated);
    DedupKeys(lex, candidates);
    forall n
      ensures n in candidates <==> MayBeCalled(lex, s, n)
    {
    }
  }

  /** A key's name is the first of the candidates with it: stated names first, then their variants. */
  lemma {:induction false} DedupKeepsFirst(lex: Lexicon, candidates: seq<string>, n: string)
    ensures n in DedupByKey(lex, candidates) <==>
              lex.norm(n) != "" && IsFirst(lex, candidates, lex.norm(n), n)
  {
    if candidates != [] {
      var front, last := candidates[..|candidates| - 1], candidates[|candidates| - 1];
      DedupKeepsFirst(lex, front, n);
      DedupKeys(lex, front);
      assert candidates == front + [last];
      FirstOfMore(lex, front, last, n);
    }
  }

  lemma FirstOfMore(lex: Lexicon, front: seq<string>, last: string, n: string)
    ensures IsFirst(lex, front + [last], lex.norm(n), n) <==>
              IsFirst(lex, front, lex.norm(n), n) || (n == last && lex.norm(n) !in Keys(lex, front))
  {
    if IsFirst(lex, front, lex.norm(n), n) {
      FirstStays(lex, front, last, lex.norm(n), n);
    }
    if n == last && lex.norm(n) !in Keys(lex, front) {
      NewIsFirst(lex, front, last);
    }
    var all := front + [last];
    if IsFirst(lex, all, lex.norm(n), n) {
      var i :| 0 <= i < |all| && all[i] == n && forall j :: 0 <= j < i ==> lex.norm(all[j]) != lex.norm(n);
      assert forall j :: 0 <= j < |front| ==> front[j] == all[j];
    }
  }

  lemma OwnersOfKey(w: Snapshot, sources: seq<Source>, concepts: Concepts, aliases: Aliases, mappings: Mappings,
                    key: string, c: Id)
    requires SnapshotOf(w, sources, concepts, aliases, mappings)
    ensures c in OwnersIn(w.names, key) <==> NamedBy(concepts, key, c)
    ensures c in OwnersIn(w.labels, key) <==> LabelledBy(concepts, aliases, key, c)
  {
    if NamedBy(concepts, key, c) || (key != "" && (c, key) in aliases) {
      var e: Entry := (c, key);
      assert e in w.labels;
    }
    if NamedBy(concepts, key, c) {
      var e: Entry := (c, key);
      assert e in w.names;
    }
  }

  lemma OwnersOfSource(w: Snapshot, sources: seq<Source>, concepts: Concepts, aliases: Aliases, mappings: Mappings,
                       s: Source, c: Id)
    requires SnapshotOf(w, sources, concepts, aliases, mappings)
    ensures c in PrimaryOwners(w, s) <==> NamedBy(concepts, w.lex.norm(s.name), c)
    ensures c in NameOwners(w, s) <==> Knows(w, concepts, aliases, s, c)
  {
    OwnersOfKey(w, sources, concepts, aliases, mappings, w.lex.norm(s.name), c);
    NameKeys(w.lex, s);
    if c in NameOwners(w, s) {
      var n :| n in Names(w.lex, s) && c in OwnersIn(w.labels, w.lex.norm(n));
      OwnersOfKey(w, sources, concepts, aliases, mappings, w.lex.norm(n), c);
      assert w.lex.norm(n) in Keys(w.lex, Names(w.lex, s));
    }
    if Knows(w, concepts, aliases, s, c) {
      var key :| HasNameKey(w.lex, s, key) && LabelledBy(concepts, aliases, key, c);
      OwnersOfKey(w, sources, concepts, aliases, mappings, key, c);
      var n :| n in Names(w.lex, s) && w.lex.norm(n) == key;
      assert c in OwnersIn(w.labels, w.lex.norm(n));
    }
  }

  // ---------------------------------------------------------------- decided by a label

  lemma OneElement(ids: set<Id>)
    ensures |ids| == 1 <==> exists c :: c in ids && forall x :: x in ids ==> x == c
  {
    if |ids| == 1 {
      var c := Only(ids);
      assert c in ids && forall x :: x in ids ==> x == c;
    }
    if c :| c in ids && forall x :: x in ids ==> x == c {
      assert ids == {c};
    }
  }

  /** The one concept of which this holds. */
  ghost predicate OnlyOne(holds: Id -> bool, c: Id) {
    holds(c) && forall x :: holds(x) ==> x == c
  }

  ghost function NamesIt(w: Snapshot, concepts: Concepts, s: Source): Id -> bool {
    (c: Id) => NamedBy(concepts, w.lex.norm(s.name), c)
  }

  ghost function KnowsIt(w: Snapshot, concepts: Concepts, aliases: Aliases, s: Source): Id -> bool {
    (c: Id) => Knows(w, concepts, aliases, s, c)
  }

  lemma OnlyOneOf(ids: set<Id>, holds: Id -> bool)
    requires forall c :: c in ids <==> holds(c)
    ensures |ids| == 1 <==> exists c :: OnlyOne(holds, c)
    ensures |ids| == 1 ==> OnlyOne(holds, Only(ids))
  {
    OneElement(ids);
    if |ids| == 1 {
      assert OnlyOne(holds, Only(ids));
    }
    if c :| OnlyOne(holds, c) {
      assert c in ids && forall x :: x in ids ==> x == c;
    }
  }

  /**
   An unmapped source is settled by its name exactly when one concept alone is active under that name,
   and else by a label exactly when one concept alone has the key of some of its names.
   */
  lemma LabelIff(w: Snapshot, sources: seq<Source>, concepts: Concepts, aliases: Aliases, mappings: Mappings, s: Source)
    requires SnapshotOf(w, sources, concepts, aliases, mappings) && s.id !in w.existing
    ensures KindOf(w, s) == NormalizedLabel <==> exists c :: OnlyOne(NamesIt(w, concepts, s), c)
    ensures KindOf(w, s) == NormalizedLabel ==> OnlyOne(NamesIt(w, concepts, s), TargetOf(w, s))
    ensures KindOf(w, s) == Alias <==>
              (forall c :: !OnlyOne(NamesIt(w, concepts, s), c))
              && exists c :: OnlyOne(KnowsIt(w, concepts, aliases, s), c)
    ensures KindOf(w, s) == Alias ==> OnlyOne(KnowsIt(w, concepts, aliases, s), TargetOf(w, s))
    ensures KindOf(w, s) in {NormalizedLabel, Alias} ==> ConfidenceOf(w, s) == 1.0
  {
    forall c
      ensures c in PrimaryOwners(w, s) <==> NamesIt(w, concepts, s)(c)
      ensures c in NameOwners(w, s) <==> KnowsIt(w, concepts, aliases, s)(c)
    {
      OwnersOfSource(w, sources, concepts, aliases, mappings, s, c);
    }
    OnlyOneOf(PrimaryOwners(w, s), NamesIt(w, concepts, s));
    OnlyOneOf(NameOwners(w, s), KnowsIt(w, concepts, aliases, s));
  }

  // ---------------------------------------------------------------- decided by a score

  /** Neither mapped before nor settled by a label. */
  ghost predicate LeftToScores(w: Snapshot, s: Source) {
    KindOf(w, s) !in {Existing, NormalizedLabel, Alias}
  }

  /** The best row leads: it is alone, or ahead of the second by at least the margin. */
  ghost predicate Leads(rows: Ranked, margin: real) {
    |rows| >= 1 && (|rows| >= 2 ==> rows[0].1 - rows[1].1 >= margin)
  }

  /**
   The trigram query settles such a source exactly when the source has a name with a key and the best row
   leads; it is then mapped to the best row's concept with the best row's score. A second row closer than
   the margin leaves a doubt.
   */
  lemma TrgmIff(w: Snapshot, s: Source)
    requires LeftToScores(w, s)
    ensures var rows := w.trgm(s.id);
            var named := exists key :: HasNameKey(w.lex, s, key);
            && (KindOf(w, s) == Trgm <==> named && Leads(rows, w.policy.trgmMargin))
            && (KindOf(w, s) == Trgm ==> TargetOf(w, s) == rows[0].0 && ConfidenceOf(w, s) == rows[0].1)
            && (TrgmOf(w, s) == Undecided(true) <==>
                  named && |rows| >= 2 && rows[0].1 - rows[1].1 < w.policy.trgmMargin)
  {
    NamedIff(w.lex, s);
  }

  lemma NamedIff(lex: Lexicon, s: Source)
    ensures Names(lex, s) != [] <==> exists key :: HasNameKey(lex, s, key)
  {
    NameKeys(lex, s);
    if Names(lex, s) != [] {
      assert Names(lex, s)[0] in Names(lex, s);
      assert lex.norm(Names(lex, s)[0]) in Keys(lex, Names(lex, s));
    }
    if key :| HasNameKey(lex, s, key) {
      assert key in Keys(lex, Names(lex, s));
    }
  }

  /**
   The vector query settles what the trigram query left exactly when the best row is at or above the high
   cutoff, or at or above the low one and leading; it is then mapped to the best row's concept with the
   best row's score. A best row at or above the low cutoff that does not settle it leaves a doubt.
   */
  lemma SemanticIff(w: Snapshot, s: Source)
    requires LeftToScores(w, s) && KindOf(w, s) != Trgm
    ensures var rows := w.semantic(s.id);
            && (KindOf(w, s) == Semantic <==>
                  && w.embedded && rows != []
                  && (rows[0].1 >= w.policy.highConfidence
                      || (rows[0].1 >= w.policy.threshold && Leads(rows, w.policy.semanticMargin))))
            && (KindOf(w, s) == Semantic ==> TargetOf(w, s) == rows[0].0 && ConfidenceOf(w, s) == rows[0].1)
            && (SemanticOf(w, s) == Undecided(true) <==>
                  w.embedded && rows != [] && KindOf(w, s) != Semantic && rows[0].1 >= w.policy.threshold)
  {
  }

  /** The rows are the first two of the ranking of all scored concepts. */
  ghost predicate AreTopTwo(rows: Ranked, scored: seq<LinkDecision.Scored>) {
    var ranked := Sort(LinkDecision.RanksBefore, scored);
    && |rows| == (if |ranked| < 2 then |ranked| else 2)
    && forall i :: 0 <= i < |rows| ==> rows[i] == (ranked[i].id, ranked[i].score)
  }

  /** So over the ranking's first two rows the vector query decides as the two-tier winner of all scores does. */
  lemma SemanticIsTwoTier(w: Snapshot, s: Source, scored: seq<LinkDecision.Scored>)
    requires LeftToScores(w, s) && KindOf(w, s) != Trgm && w.embedded && AreTopTwo(w.semantic(s.id), scored)
    ensures var p := LinkDecision.Params(w.policy.highConfidence, w.policy.threshold, w.policy.semanticMargin);
            var winner := LinkDecision.SemanticWinner(scored, p);
            && (KindOf(w, s) == Semantic <==> winner.Some?)
            && (winner.Some? ==> TargetOf(w, s) == winner.value.id && ConfidenceOf(w, s) == winner.value.score)
  {
    SemanticIff(w, s);
  }

  /** It holds of two concepts. */
  ghost predicate OfTwo(holds: Id -> bool) {
    exists a, b :: a != b && holds(a) && holds(b)
  }

  /** The labels are contested when two concepts have keys of the source. */
  lemma ContestedIff(w: Snapshot, sources: seq<Source>, concepts: Concepts, aliases: Aliases, mappings: Mappings,
                     s: Source)
    requires SnapshotOf(w, sources, concepts, aliases, mappings)
    ensures OwnersAmbiguous(w, s) <==> OfTwo(KnowsIt(w, concepts, aliases, s))
  {
    forall c
      ensures c in NameOwners(w, s) <==> KnowsIt(w, concepts, aliases, s)(c)
    {
      OwnersOfSource(w, sources, concepts, aliases, mappings, s, c);
    }
    TwoOf(NameOwners(w, s), KnowsIt(w, concepts, aliases, s));
    NamesAreLabels(w, concepts, aliases, s);
  }

  lemma NamesAreLabels(w: Snapshot, concepts: Concepts, aliases: Aliases, s: Source)
    requires w.names == ActiveNames(concepts) && w.labels == ActiveNames(concepts) + aliases.Keys
    ensures PrimaryOwners(w, s) + NameOwners(w, s) == NameOwners(w, s)
  {
    LabelsCoverNames(w, concepts, aliases);
    PrimaryAmongNames(w, s);
  }

  lemma TwoOf(ids: set<Id>, holds: Id -> bool)
    requires forall c :: c in ids <==> holds(c)
    ensures |ids| > 1 <==> OfTwo(holds)
  {
    TwoElements(ids);
  }

  /**
   What none of that settles founds a concept of its own, unless there was a doubt: two concepts with keys
   of the source, or a doubt of the trigram or of the vector query. Then it stays unresolved.
   */
  lemma FoundedIff(w: Snapshot, sources: seq<Source>, concepts: Concepts, aliases: Aliases, mappings: Mappings,
                   s: Source)
    requires SnapshotOf(w, sources, concepts, aliases, mappings)
    requires LeftToScores(w, s) && KindOf(w, s) !in {Trgm, Semantic}
    ensures KindOf(w, s) == Unresolved <==>
              OfTwo(KnowsIt(w, concepts, aliases, s)) || TrgmOf(w, s) == Undecided(true)
              || SemanticOf(w, s) == Undecided(true)
    ensures KindOf(w, s) in {Created, Unresolved}
    ensures KindOf(w, s) == Created ==> TargetOf(w, s) == w.lex.conceptId(s.externalId) && ConfidenceOf(w, s) == 1.0
  {
    ContestedIff(w, sources, concepts, aliases, mappings, s);
  }

  lemma LabelsCoverNames(w: Snapshot, concepts: Concepts, aliases: Aliases)
    requires w.names == ActiveNames(concepts) && w.labels == ActiveNames(concepts) + aliases.Keys
    ensures Sound(w)
  {
  }

  lemma TwoElements(ids: set<Id>)
    ensures |ids| > 1 <==> exists a, b :: a in ids && b in ids && a != b
  {
    if |ids| > 1 {
      var a :| a in ids;
      assert |ids - {a}| > 0;
      var b :| b in ids - {a};
    }
    if a, b :| a in ids && b in ids && a != b {
      SubsetCard({a, b}, ids);
    }
  }

  // ---------------------------------------------------------------- what the run writes

  /** A source is mapped before the run when it has some mapping. */
  lemma ExistingMeansMapped(w: Snapshot, sources: seq<Source>, concepts: Concepts, aliases: Aliases, mappings: Mappings,
                            s: Source)
    requires SnapshotOf(w, sources, concepts, aliases, mappings) && s in sources
    ensures KindOf(w, s) == Existing <==> exists c :: (s.id, c) in mappings
  {
    if c :| (s.id, c) in mappings {
      var k := (s.id, c);
      assert k in mappings && s.id == k.0;
    }
  }

  /** The mapping rows after a run: each settled source has its target's row and no other. */
  lemma RunMaps(w: Snapshot, sources: seq<Source>, before: Mappings, after: Mappings, s: Source, c: Id)
    requires DistinctIds(sources) && s in sources && KindOf(w, s) in MAPPED
    requires MappingsAre(before, after, GoalsOf(PlanOf(w), sources, MAPPED))
    ensures (s.id, c) in after <==> c == TargetOf(w, s)
    ensures (s.id, c) in after ==>
              after[(s.id, c)] == MappingRow(ConfidenceOf(w, s) == 1.0, ConfidenceOf(w, s), KindOf(w, s))
  {
    GoalAt(PlanOf(w), sources, MAPPED, s);
    GoalMaps(before, after, GoalsOf(PlanOf(w), sources, MAPPED), s.id, VerdictOf(w, s), c);
  }

  lemma GoalMaps(before: Mappings, after: Mappings, goals: Goals, sid: SourceId, v: Verdict, c: Id)
    requires MappingsAre(before, after, goals) && sid in goals && goals[sid] == v
    ensures (sid, c) in after <==> c == v.target
    ensures (sid, c) in after ==> after[(sid, c)] == MappingRow(v.confidence == 1.0, v.confidence, v.kind)
  {
    var k := (sid, c);
    assert k.0 in goals;
  }

  /** A source the trigram query settles is mapped to the best row's concept with the best row's score. */
  lemma RunMapsTrgm(w: Snapshot, sources: seq<Source>, before: Mappings, after: Mappings, s: Source)
    requires DistinctIds(sources) && s in sources && LeftToScores(w, s)
    requires MappingsAre(before, after, GoalsOf(PlanOf(w), sources, MAPPED))
    requires (exists key :: HasNameKey(w.lex, s, key)) && Leads(w.trgm(s.id), w.policy.trgmMargin)
    ensures var best := w.trgm(s.id)[0];
            && (forall c :: (s.id, c) in after <==> c == best.0)
            && (s.id, best.0) in after && after[(s.id, best.0)] == MappingRow(best.1 == 1.0, best.1, Trgm)
  {
    TrgmIff(w, s);
    forall c
      ensures (s.id, c) in after <==> c == TargetOf(w, s)
    {
      RunMaps(w, sources, before, after, s, c);
    }
    RunMaps(w, sources, before, after, s, TargetOf(w, s));
  }

  /** One the vector query settles, the same with that query's best row. */
  lemma RunMapsSemantic(w: Snapshot, sources: seq<Source>, before: Mappings, after: Mappings, s: Source)
    requires DistinctIds(sources) && s in sources && LeftToScores(w, s) && KindOf(w, s) != Trgm
    requires MappingsAre(before, after, GoalsOf(PlanOf(w), sources, MAPPED))
    requires w.embedded && w.semantic(s.id) != []
    requires var rows := w.semantic(s.id);
             rows[0].1 >= w.policy.highConfidence
             || (rows[0].1 >= w.policy.threshold && Leads(rows, w.policy.semanticMargin))
    ensures var best := w.semantic(s.id)[0];
            && (forall c :: (s.id, c) in after <==> c == best.0)
            && (s.id, best.0) in after && after[(s.id, best.0)] == MappingRow(best.1 == 1.0, best.1, Semantic)
  {
    SemanticIff(w, s);
    forall c
      ensures (s.id, c) in after <==> c == TargetOf(w, s)
    {
      RunMaps(w, sources, before, after, s, c);
    }
    RunMaps(w, sources, before, after, s, TargetOf(w, s));
  }

  /** Founding concepts touches no other concept. */
  lemma {:induction false} OtherConceptsStay(lex: Lexicon, concepts: Concepts, created: seq<Source>, c: Id)
    requires forall s :: s in created ==> lex.conceptId(s.externalId) != c
    ensures c in AfterCreating(lex, concepts, created) <==> c in concepts
    ensures c in concepts ==> AfterCreating(lex, concepts, created)[c] == concepts[c]
  {
    if created != [] {
      OtherConceptsStay(lex, concepts, created[..|created| - 1], c);
    }
  }

  /** Each founded concept is there, active and under its source's canonical name. */
  lemma {:induction false} FoundedConcepts(lex: Lexicon, concepts: Concepts, created: seq<Source>, s: Source)
    requires s in created
    requires forall t :: t in created && lex.conceptId(t.externalId) == lex.conceptId(s.externalId) ==> t == s
    ensures lex.conceptId(s.externalId) in AfterCreating(lex, concepts, created)
    ensures AfterCreating(lex, concepts, created)[lex.conceptId(s.externalId)]
            == ConceptRow(lex.canonical(s.name), lex.norm(lex.canonical(s.name)), true)
  {
    var front, last := created[..|created| - 1], created[|created| - 1];
    assert created == front + [last];
    if last != s {
      FoundedConcepts(lex, concepts, front, s);
    }
  }

  /** A founded concept is offered its source's name variants, any other the source's names; by key, the first. */
  lemma OffersAre(w: Snapshot, s: Source, key: string)
    ensures key in OfferedNames(w, s) && key != "" <==>
              key != "" && if KindOf(w, s) == Created then
                             exists n :: n in w.lex.variants(s.name) && w.lex.norm(n) == key
                           else HasNameKey(w.lex, s, key)
    ensures key in OfferedNames(w, s) ==>
              IsFirst(w.lex, if KindOf(w, s) == Created then w.lex.variants(s.name) else Names(w.lex, s), key,
                      OfferedNames(w, s)[key])
  {
    var names := if KindOf(w, s) == Created then w.lex.variants(s.name) else Names(w.lex, s);
    FirstNamesFacts(w.lex, names);
    NameKeys(w.lex, s);
  }

  /**
   Every alias that came in was offered by a settled source to its concept: the source's first name with
   the key, as an alternative; or, for a founded concept, the first variant with the key, preferred for the
   key of the canonical name and derived for the others.
   */
  lemma NewAliasesAre(w: Snapshot, sources: seq<Source>, before: Aliases, after: Aliases, k: Entry)
    returns (s: Source)
    requires DistinctIds(sources) && k in after && k !in before
    requires AliasesAre(before, after, GoalsOf(PlanOf(w), sources, MAPPED))
    ensures s in sources && KindOf(w, s) in MAPPED && TargetOf(w, s) == k.0
    ensures KindOf(w, s) != Created ==>
              IsFirst(w.lex, Names(w.lex, s), k.1, after[k].alias) && after[k].kind == Alt
    ensures KindOf(w, s) == Created ==>
              IsFirst(w.lex, w.lex.variants(s.name), k.1, after[k].alias)
              && after[k].kind == if k.1 == w.lex.norm(w.lex.canonical(s.name)) then Preferred else Derived
  {
    var goals := GoalsOf(PlanOf(w), sources, MAPPED);
    var sid :| sid in goals && goals[sid].target == k.0 && k.1 in goals[sid].offered
               && after[k] == AliasRow(goals[sid].offered[k.1], KindFor(goals[sid], k.1));
    s := GoalSource(PlanOf(w), sources, MAPPED, sid);
    OffersAre(w, s, k.1);
  }

  // ---------------------------------------------------------------- the counters

  /** The sources that come to one kind, by position. */
  ghost function OfKind(plan: Plan, sources: seq<Source>, kind: Kind): set<nat> {
    set i | 0 <= i < |sources| && plan(sources[i]).kind == kind
  }

  lemma OneMoreOfKind(plan: Plan, front: seq<Source>, last: Source, kind: Kind)
    ensures |OfKind(plan, front + [last], kind)|
            == |OfKind(plan, front, kind)| + if plan(last).kind == kind then 1 else 0
  {
    if plan(last).kind == kind {
      assert OfKind(plan, front + [last], kind) == OfKind(plan, front, kind) + {|front|};
    } else {
      assert OfKind(plan, front + [last], kind) == OfKind(plan, front, kind);
    }
  }

  lemma {:induction false} CountIsSize(plan: Plan, sources: seq<Source>, kind: Kind)
    ensures CountKind(plan, sources, kind) == |OfKind(plan, sources, kind)|
  {
    if sources != [] {
      var front, last := sources[..|sources| - 1], sources[|sources| - 1];
      CountIsSize(plan, front, kind);
      assert sources == front + [last];
      OneMoreOfKind(plan, front, last, kind);
    }
  }

  /** Each counter of the result is the number of sources that come to that. */
  lemma CountersAre(plan: Plan, sources: seq<Source>)
    ensures var r := Counted(plan, sources);
            && r.existing == |OfKind(plan, sources, Existing)|
            && r.normalizedLabel == |OfKind(plan, sources, NormalizedLabel)|
            && r.alias == |OfKind(plan, sources, Alias)|
            && r.trgm == |OfKind(plan, sources, Trgm)|
            && r.semantic == |OfKind(plan, sources, Semantic)|
            && r.created == |OfKind(plan, sources, Created)|
            && r.unresolved == |OfKind(plan, sources, Unresolved)|
  {
    CountIsSize(plan, sources, Existing);
    CountIsSize(plan, sources, NormalizedLabel);
    CountIsSize(plan, sources, Alias);
    CountIsSize(plan, sources, Trgm);
    CountIsSize(plan, sources, Semantic);
    CountIsSize(plan, sources, Created);
    CountIsSize(plan, sources, Unresolved);
  }
}
