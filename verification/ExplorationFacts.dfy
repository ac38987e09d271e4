/** What the search of Exploration guarantees, for every table and every query. */
module ExplorationFacts {
  import opened ConceptGraph
  import opened Exploration
  import opened Ordering
  import opened Seqs

  // ---------------------------------------------------------------- caps

  lemma PrependDistinct<T>(x: T, s: seq<T>)
    requires NoDuplicates(s) && x !in s
    ensures NoDuplicates([x] + s)
  {
    forall i, j | 0 <= i < j < |s| + 1
      ensures ([x] + s)[i] != ([x] + s)[j]
    {
      assert ([x] + s)[j] == s[j - 1] && (i > 0 ==> ([x] + s)[i] == s[i - 1]);
    }
  }

  lemma {:induction false} KeepFacts<T>(s: seq<T>, x: T)
    requires NoDuplicates(s)
    ensures |Keep(s, x, true)| == if x in s then 1 else 0
    ensures |Keep(s, x, true)| + |Keep(s, x, false)| == |s|
    ensures forall y :: y in Keep(s, x, true) <==> y in s && y == x
    ensures forall y :: y in Keep(s, x, false) <==> y in s && y != x
    ensures NoDuplicates(Keep(s, x, true)) && NoDuplicates(Keep(s, x, false))
  {
    if s != [] {
      var head, rest := s[0], s[1..];
      KeepFacts(rest, x);
      assert s == [head] + rest;
      assert head !in rest;
      PrependDistinct(head, Keep(rest, x, head == x));
    }
  }

  lemma InOrderSize<T(!new)>(leq: (T, T) -> bool, s: set<T>)
    ensures |InOrder(leq, s)| == |s|
  {
    InOrderMembers(leq, s);
    DistinctSize(InOrder(leq, s), s);
  }

  /** The selected item, when there is one, and the first others: no repetition, and as many as fit. */
  lemma SelectedFirstFacts<T>(mine: seq<T>, others: seq<T>, cap: nat)
    requires NoDuplicates(mine) && NoDuplicates(others) && (forall x :: x in mine ==> x !in others)
    requires |mine| <= cap
    ensures var list := SelectedFirst(mine, others, cap);
            && NoDuplicates(list) && |list| == (if |mine| + |others| <= cap then |mine| + |others| else cap)
            && (forall x :: x in mine ==> x in list) && (forall x :: x in list ==> x in mine || x in others)
  {
    var left := if cap - |mine| < |others| then cap - |mine| else |others|;
    assert SelectedFirst(mine, others, cap) == mine + others[..left];
    forall i, j | 0 <= i < j < |mine| + left
      ensures (mine + others[..left])[i] != (mine + others[..left])[j]
    {
      assert j >= |mine| ==> (mine + others[..left])[j] == others[j - |mine|];
      assert i < |mine| ==> (mine + others[..left])[i] in mine;
    }
  }

  lemma CapMembersFacts(ranked: seq<Id>, selected: Id, cap: nat)
    requires NoDuplicates(ranked) && cap >= 1
    ensures var list := CapMembers(ranked, selected, cap);
            && NoDuplicates(list) && |list| == (if |ranked| <= cap then |ranked| else cap)
            && (forall c :: c in list ==> c in ranked) && (selected in ranked ==> selected in list)
            && (|ranked| <= cap ==> list == ranked)
  {
    KeepFacts(ranked, selected);
    SelectedFirstFacts(Keep(ranked, selected, true), Keep(ranked, selected, false), cap);
  }

  /** A category is drawn with min(size, cap) of its members, the selected concept among them when it is one. */
  lemma CapKeepsSelected(q: Query, k: SourceId)
    requires q.cap >= 1
    ensures KeptMembers(q, k) <= MappedEnds(q.db, k)
    ensures |KeptMembers(q, k)| == if |MappedEnds(q.db, k)| <= q.cap then |MappedEnds(q.db, k)| else q.cap
    ensures q.selected in MappedEnds(q.db, k) ==> q.selected in KeptMembers(q, k)
    ensures |MappedEnds(q.db, k)| <= q.cap ==> KeptMembers(q, k) == MappedEnds(q.db, k)
  {
    var ranked := InOrder(q.byName, MappedEnds(q.db, k));
    InOrderMembers(q.byName, MappedEnds(q.db, k));
    InOrderSize(q.byName, MappedEnds(q.db, k));
    CapMembersFacts(ranked, q.selected, q.cap);
    DistinctSize(CapMembers(ranked, q.selected, q.cap), KeptMembers(q, k));
  }

  /** The node list has min(size, limit) of the nodes and keeps the selected one. */
  lemma LimitKeepsSelected(orders: Orders, all: set<Node>, selected: Node, limit: nat)
    requires limit >= 1 && selected in all
    ensures var kept := KeptNodes(orders, all, selected, limit);
            && kept <= all && selected in kept && |kept| == (if |all| <= limit then |all| else limit)
  {
    if |all| > limit {
      var others := InOrder(orders.byNode, all - {selected});
      InOrderMembers(orders.byNode, all - {selected});
      InOrderSize(orders.byNode, all - {selected});
      SelectedFirstFacts([selected], others, limit);
      var list := SelectedFirst([selected], others, limit);
      assert selected in [selected];
      DistinctSize(list, set n | n in list);
    }
  }

  // ---------------------------------------------------------------- what a round finds is near

  /** The concepts discovered over canonical edges are the neighbours outside the frontier. */
  lemma DiscoveredAreNear(db: Db, frontier: set<Id>)
    ensures Discovered(db, frontier) <= NearAll(db, frontier)
    ensures forall a, c :: a in frontier && c in Adjacent(db, a) ==> c in frontier + Discovered(db, frontier)
  {
    forall c | c in Discovered(db, frontier)
      ensures c in NearAll(db, frontier)
    {
      var e :| e in CanonicalRows(db, frontier) && (e.subject == c || e.obj == c);
      var a := if e.subject == c then e.obj else e.subject;
      assert c in Adjacent(db, a);
      assert c in Near(db, a);
    }
  }

  lemma AtFrontier(db: Db, frontier: set<Id>, s: SourceId)
    ensures s in FrontierSources(db, frontier) <==> ConceptsOf(db, s) * frontier != {}
  {
    if s in FrontierSources(db, frontier) {
      var m :| m in db.mappings && m.1 in frontier && m.0 == s;
      assert m.1 in ConceptsOf(db, s) * frontier;
    }
    if ConceptsOf(db, s) * frontier != {} {
      var c: Id :| c in ConceptsOf(db, s) * frontier;
      assert (s, c) in db.mappings;
    }
  }

  /** A source end outside the frontier is across an edge from it, and the other way round. */
  lemma EndIsAcross(db: Db, frontier: set<Id>, t: SourceId) returns (a: Id)
    requires t in EndsAt(db, frontier) && t !in FrontierSources(db, frontier)
    ensures a in frontier && t in Across(db, a)
  {
    var at := FrontierSources(db, frontier);
    var e :| e in SourceRows(db, at) && (e.subject == t || e.obj == t);
    var s := if e.subject == t then e.obj else e.subject;
    assert s in at;
    var m :| m in db.mappings && m.1 in frontier && m.0 == s;
    a := m.1;
    assert s in SourcesOf(db, a) && t in Opposite(db, s);
  }

  lemma AcrossIsEnd(db: Db, frontier: set<Id>, a: Id, t: SourceId)
    requires a in frontier && t in Across(db, a)
    ensures t in EndsAt(db, frontier)
  {
    var s :| s in SourcesOf(db, a) && t in Opposite(db, s);
    assert (s, a) in db.mappings;
    assert s in FrontierSources(db, frontier);
    var e :| e in db.sourceEdges && ((e.subject == s && e.obj == t) || (e.obj == s && e.subject == t));
    assert e in RowsAt(db, frontier);
  }

  /** Concepts drawn over source edges are at the frontier or near it. */
  lemma SourceConceptsAreNear(db: Db, frontier: set<Id>)
    ensures SourceConcepts(db, frontier) <= frontier + NearAll(db, frontier)
  {
    forall s | s in EndsAt(db, frontier) && ConceptsOf(db, s) != {}
      ensures Least(Candidates(db, frontier, s)) in frontier + NearAll(db, frontier)
    {
      AtFrontier(db, frontier, s);
      if ConceptsOf(db, s) * frontier == {} {
        var a := EndIsAcross(db, frontier, s);
        assert Least(ConceptsOf(db, s)) in Near(db, a);
      }
    }
  }

  /** With single mappings they are all the concepts across an edge. */
  lemma SourceConceptsFound(db: Db, frontier: set<Id>, a: Id, t: SourceId, c: Id)
    requires SingleMapping(db) && a in frontier && t in Across(db, a) && c in ConceptsOf(db, t)
    ensures c in SourceConcepts(db, frontier)
  {
    AcrossIsEnd(db, frontier, a, t);
    var least := Least(Candidates(db, frontier, t));
    assert (t, least) in db.mappings && (t, c) in db.mappings;
  }

  /** The unmapped ends of a round are its categories. */
  lemma RoundCategories(db: Db, frontier: set<Id>, k: SourceId)
    ensures k in EndsAt(db, frontier) && ConceptsOf(db, k) == {} <==> k in CategoriesAll(db, frontier)
  {
    if k in EndsAt(db, frontier) && ConceptsOf(db, k) == {} {
      AtFrontier(db, frontier, k);
      var a := EndIsAcross(db, frontier, k);
      assert k in CategoriesOf(db, a);
    }
    if k in CategoriesAll(db, frontier) {
      var a :| a in frontier && k in CategoriesOf(db, a);
      AcrossIsEnd(db, frontier, a, k);
    }
  }

  lemma MappedEndsAreMembers(db: Db, k: SourceId)
    ensures MappedEnds(db, k) <= Members(db, k)
    ensures SingleMapping(db) ==> MappedEnds(db, k) == Members(db, k)
  {
    if SingleMapping(db) {
      forall t, c | t in Opposite(db, k) && c in ConceptsOf(db, t)
        ensures c in MappedEnds(db, k)
      {
        assert (t, c) in db.mappings && (t, Least(ConceptsOf(db, t))) in db.mappings;
      }
    }
  }

  lemma KeptAreNear(q: Query, s: Stage)
    requires q.cap >= 1
    ensures AllKept(q, NewCategories(q, s)) <= NearAll(q.db, s.frontier)
  {
    forall k, c | k in NewCategories(q, s) && c in KeptMembers(q, k)
      ensures c in NearAll(q.db, s.frontier)
    {
      CapKeepsSelected(q, k);
      MappedEndsAreMembers(q.db, k);
      var a :| a in s.frontier && k in CategoriesOf(q.db, a);
      assert c in Near(q.db, a);
    }
  }

  lemma NextIsNear(q: Query, s: Stage)
    requires q.cap >= 1
    ensures NextOf(q, s) <= s.frontier + NearAll(q.db, s.frontier)
  {
    DiscoveredAreNear(q.db, s.frontier);
    SourceConceptsAreNear(q.db, s.frontier);
    KeptAreNear(q, s);
  }

  // ---------------------------------------------------------------- reachability

  lemma NearMonotone(db: Db, a: set<Id>, b: set<Id>)
    requires a <= b
    ensures NearAll(db, a) <= NearAll(db, b) && CategoriesAll(db, a) <= CategoriesAll(db, b)
  {
  }

  /** A step that keeps what was seen, and whose frontier is new. */
  ghost predicate Grows(step: Stage -> Stage) {
    forall s: Stage :: s.seen <= step(s).seen && s.cats <= step(s).cats
                       && step(s).frontier <= step(s).seen && step(s).frontier !! s.seen
  }

  lemma StageGrows(s: Stage, next: set<Id>, more: set<SourceId>, s': Stage)
    requires s' == Stage(next - s.seen, s.seen + next, s.cats + more)
    ensures s.seen <= s'.seen && s.cats <= s'.cats && s'.frontier <= s'.seen && s'.frontier !! s.seen
  {
  }

  lemma RoundsGrow(q: Query)
    ensures Grows(RoundOf(q))
  {
    forall s: Stage
      ensures s.seen <= RoundOf(q)(s).seen && s.cats <= RoundOf(q)(s).cats
              && RoundOf(q)(s).frontier <= RoundOf(q)(s).seen && RoundOf(q)(s).frontier !! s.seen
    {
      StageGrows(s, NextOf(q, s), CategoriesAll(q.db, s.frontier), RoundOf(q)(s));
    }
  }

  lemma {:induction false} AfterLater(step: Stage -> Stage, start: Stage, early: nat, late: nat)
    requires Grows(step) && early <= late
    ensures After(step, start, early).seen <= After(step, start, late).seen
    ensures After(step, start, early).cats <= After(step, start, late).cats
    decreases late
  {
    if early < late {
      AfterLater(step, start, early, late - 1);
    }
  }

  lemma AfterSeen(step: Stage -> Stage, start: Stage, rounds: nat)
    requires Grows(step) && start.frontier <= start.seen
    ensures After(step, start, rounds).frontier <= After(step, start, rounds).seen
  {
  }

  lemma AfterApart(step: Stage -> Stage, start: Stage, early: nat, late: nat)
    requires Grows(step) && start.frontier <= start.seen && early < late
    ensures After(step, start, early).frontier !! After(step, start, late).frontier
  {
    AfterSeen(step, start, early);
    AfterLater(step, start, early, late - 1);
  }

  /** What the start has, and every round from a good stage keeps, holds while the stages are good. */
  lemma {:induction false} AfterKeeps(step: Stage -> Stage, start: Stage, good: Stage -> bool,
                                      inv: (nat, Stage) -> bool, rounds: nat)
    requires inv(0, start) && forall i: nat, s :: inv(i, s) && good(s) ==> inv(i + 1, step(s))
    requires forall i: nat :: i < rounds ==> good(After(step, start, i))
    ensures inv(rounds, After(step, start, rounds))
  {
    if rounds > 0 {
      AfterKeeps(step, start, good, inv, rounds - 1);
      var s := After(step, start, rounds - 1);
      assert good(s) && inv(rounds - 1, s);
      assert inv(rounds - 1 + 1, step(s));
    }
  }

  /** Steps that agree on good stages agree while the stages are good. */
  lemma {:induction false} AfterAgree(step: Stage -> Stage, other: Stage -> Stage, start: Stage,
                                      good: Stage -> bool, rounds: nat)
    requires forall s :: good(s) ==> step(s) == other(s)
    requires forall i: nat :: i < rounds ==> good(After(step, start, i))
    ensures After(other, start, rounds) == After(step, start, rounds)
  {
    if rounds > 0 {
      AfterAgree(step, other, start, good, rounds - 1);
      assert good(After(step, start, rounds - 1));
    }
  }

  lemma FrontierIsSeen(q: Query, rounds: nat)
    ensures StageAt(q, rounds).frontier <= StageAt(q, rounds).seen && q.selected in StageAt(q, rounds).seen
  {
    RoundsGrow(q);
    AfterSeen(RoundOf(q), Start(q), rounds);
    AfterLater(RoundOf(q), Start(q), 0, rounds);
    SeenFromStart(q.selected, Start(q).seen, StageAt(q, rounds).seen);
  }

  lemma SeenFromStart(x: Id, a: set<Id>, b: set<Id>)
    requires x in a && a <= b
    ensures x in b
  {
  }

  lemma StagesGrow(q: Query, early: nat, late: nat)
    requires early <= late
    ensures StageAt(q, early).seen <= StageAt(q, late).seen && StageAt(q, early).cats <= StageAt(q, late).cats
  {
    RoundsGrow(q);
    AfterLater(RoundOf(q), Start(q), early, late);
  }

  /** Each concept is expanded in one round at most: the frontiers are disjoint. */
  lemma ExpandedOnce(q: Query, early: nat, late: nat)
    requires early < late
    ensures StageAt(q, early).frontier !! StageAt(q, late).frontier
  {
    RoundsGrow(q);
    AfterApart(RoundOf(q), Start(q), early, late);
  }

  /** Whatever the caps, the search finds only what can be reached in as many rounds. */
  lemma FoundIsReachable(q: Query, rounds: nat)
    requires q.cap >= 1
    ensures IsReachable(q.db, q.selected, rounds, StageAt(q, rounds))
  {
    var inv := (i: nat, s: Stage) => IsReachable(q.db, q.selected, i, s);
    forall i: nat, s: Stage | inv(i, s)
      ensures inv(i + 1, RoundOf(q)(s))
    {
      NextIsNear(q, s);
      WithinGrows(q.db, q.selected, i);
      ReachableStep(q.db, q.selected, i, s, NextOf(q, s), RoundOf(q)(s));
    }
    AfterKeeps(RoundOf(q), Start(q), s => true, inv, rounds);
  }

  ghost predicate IsReachable(db: Db, selected: Id, rounds: nat, s: Stage) {
    s.frontier <= s.seen <= Within(db, selected, rounds) && s.cats <= CategoriesWithin(db, selected, rounds)
  }

  lemma ReachableStep(db: Db, selected: Id, rounds: nat, s: Stage, next: set<Id>, s': Stage)
    requires IsReachable(db, selected, rounds, s)
    requires CategoriesWithin(db, selected, rounds) <= CategoriesWithin(db, selected, rounds + 1)
    requires next <= s.frontier + NearAll(db, s.frontier)
    requires s' == Stage(next - s.seen, s.seen + next, s.cats + CategoriesAll(db, s.frontier))
    ensures IsReachable(db, selected, rounds + 1, s')
  {
    var inner := Within(db, selected, rounds);
    NextLevel(db, selected, rounds, inner);
    NearMonotone(db, s.frontier, inner);
  }

  // ---------------------------------------------------------------- completeness

  /** Everything expanded has all it leads to. */
  ghost predicate Complete(db: Db, s: Stage) {
    && s.cats == CategoriesAll(db, s.seen - s.frontier)
    && NearAll(db, s.seen - s.frontier) <= s.seen
    && (forall k :: k in s.cats ==> Members(db, k) <= s.seen)
  }

  lemma UncappedKept(q: Query, s: Stage, k: SourceId)
    requires q.cap >= 1 && SingleMapping(q.db) && !OverCap(q, NewCategories(q, s)) && k in NewCategories(q, s)
    ensures Members(q.db, k) <= AllKept(q, NewCategories(q, s))
  {
    MappedEndsAreMembers(q.db, k);
    CapKeepsSelected(q, k);
  }

  /** A round over no cap finds everything near the frontier. */
  lemma NothingMissed(q: Query, s: Stage)
    requires q.cap >= 1 && SingleMapping(q.db) && !OverCap(q, NewCategories(q, s))
    requires s.frontier <= s.seen && q.selected in s.seen && forall k :: k in s.cats ==> Members(q.db, k) <= s.seen
    ensures NearAll(q.db, s.frontier) <= s.seen + NextOf(q, s)
    ensures forall k :: k in s.cats + CategoriesAll(q.db, s.frontier) ==> Members(q.db, k) <= s.seen + NextOf(q, s)
  {
    DiscoveredAreNear(q.db, s.frontier);
    forall k | k in CategoriesAll(q.db, s.frontier)
      ensures Members(q.db, k) <= s.seen + NextOf(q, s)
    {
      if k !in s.cats {
        UncappedKept(q, s, k);
      }
    }
    forall a, c | a in s.frontier && c in Near(q.db, a)
      ensures c in s.seen + NextOf(q, s)
    {
      NearIsFound(q, s, a, c);
    }
  }

  lemma NearIsFound(q: Query, s: Stage, a: Id, c: Id)
    requires SingleMapping(q.db) && s.frontier <= s.seen && a in s.frontier && c in Near(q.db, a)
    requires forall x, y :: x in s.frontier && y in Adjacent(q.db, x) ==> y in s.frontier + Discovered(q.db, s.frontier)
    requires forall k :: k in CategoriesAll(q.db, s.frontier) ==> Members(q.db, k) <= s.seen + NextOf(q, s)
    ensures c in s.seen + NextOf(q, s)
  {
    if c in Adjacent(q.db, a) {
      assert c in s.frontier + Discovered(q.db, s.frontier);
    } else if t :| t in Across(q.db, a) && c in ConceptsOf(q.db, t) {
      SourceConceptsFound(q.db, s.frontier, a, t, c);
    } else {
      var k :| k in CategoriesOf(q.db, a) && c in Members(q.db, k);
      assert k in CategoriesAll(q.db, s.frontier);
    }
  }

  lemma CompleteStep(db: Db, s: Stage, next: set<Id>, s': Stage)
    requires Complete(db, s) && s.frontier <= s.seen
    requires s' == Stage(next - s.seen, s.seen + next, s.cats + CategoriesAll(db, s.frontier))
    requires next <= s.frontier + NearAll(db, s.frontier)
    requires NearAll(db, s.frontier) <= s.seen + next
    requires forall k :: k in s.cats + CategoriesAll(db, s.frontier) ==> Members(db, k) <= s.seen + next
    ensures Complete(db, s')
    ensures s'.seen == Round(db, s.seen) && s'.seen - s'.frontier == s.seen
  {
    NearGrows(db, s.seen - s.frontier, s.frontier);
    assert (s.seen - s.frontier) + s.frontier == s.seen;
    assert (s.seen + next) - (next - s.seen) == s.seen;
  }

  /**
   With single mappings and no cap exceeded the search finds exactly what can be reached: no category and
   no concept within the rounds is missing.
   */
  lemma UncappedIsComplete(q: Query, rounds: nat)
    requires q.cap >= 1 && SingleMapping(q.db) && !CappedBy(q, rounds)
    ensures IsAll(q.db, q.selected, rounds, StageAt(q, rounds))
  {
    var inv := (i: nat, s: Stage) => IsAll(q.db, q.selected, i, s);
    StartIsAll(q.db, q.selected, Start(q));
    forall i: nat, s: Stage | inv(i, s) && Uncapped(q)(s)
      ensures inv(i + 1, RoundOf(q)(s))
    {
      AllRound(q, i, s);
    }
    StagesUncapped(q, rounds);
    AfterKeeps(RoundOf(q), Start(q), Uncapped(q), inv, rounds);
  }

  ghost function Uncapped(q: Query): Stage -> bool {
    s => !OverCap(q, NewCategories(q, s))
  }

  lemma StagesUncapped(q: Query, rounds: nat)
    requires !CappedBy(q, rounds)
    ensures forall i: nat :: i < rounds ==> Uncapped(q)(After(RoundOf(q), Start(q), i))
  {
    forall i: nat | i < rounds
      ensures Uncapped(q)(After(RoundOf(q), Start(q), i))
    {
      assert !OverCapInRound(q)(i);
    }
  }

  lemma AllRound(q: Query, rounds: nat, s: Stage)
    requires q.cap >= 1 && SingleMapping(q.db) && Uncapped(q)(s) && IsAll(q.db, q.selected, rounds, s)
    ensures IsAll(q.db, q.selected, rounds + 1, NextStage(q, s))
  {
    NextIsNear(q, s);
    NothingMissed(q, s);
    CompleteStep(q.db, s, NextOf(q, s), NextStage(q, s));
    NextLevel(q.db, q.selected, rounds, s.seen);
  }

  /** All there is within the rounds. */
  ghost predicate IsAll(db: Db, selected: Id, rounds: nat, s: Stage) {
    && s.seen == Within(db, selected, rounds) && s.cats == CategoriesWithin(db, selected, rounds)
    && s.frontier <= s.seen && selected in s.seen && Complete(db, s)
  }

  lemma StartIsAll(db: Db, selected: Id, s: Stage)
    requires s == Stage({selected}, {selected}, {})
    ensures IsAll(db, selected, 0, s)
  {
    assert s.seen - s.frontier == {};
  }

  /** Whatever the mappings: where no cap was exceeded, a larger cap finds and draws the same. */
  lemma LargerCapSame(q: Query, larger: nat, rounds: nat)
    requires 1 <= q.cap <= larger && !CappedBy(q, rounds)
    ensures StageAt(q.(cap := larger), rounds) == StageAt(q, rounds)
  {
    var wide := q.(cap := larger);
    forall s | Uncapped(q)(s)
      ensures RoundOf(q)(s) == RoundOf(wide)(s)
    {
      LargerCapSameRound(q, larger, s);
    }
    StagesUncapped(q, rounds);
    AfterAgree(RoundOf(q), RoundOf(wide), Start(q), Uncapped(q), rounds);
  }

  lemma LargerCapSameRound(q: Query, larger: nat, s: Stage)
    requires 1 <= q.cap <= larger && !OverCap(q, NewCategories(q, s))
    ensures NextStage(q.(cap := larger), s) == NextStage(q, s)
  {
    var wide, newOnes := q.(cap := larger), NewCategories(q, s);
    forall k | k in newOnes
      ensures KeptMembers(wide, k) == KeptMembers(q, k)
    {
      CapKeepsSelected(q, k);
      CapKeepsSelected(wide, k);
    }
    assert AllKept(wide, newOnes) == AllKept(q, newOnes);
  }

  // ---------------------------------------------------------------- edges

  /** Every edge joins two of the nodes. */
  ghost predicate EndsIn(edges: set<Edge>, nodes: set<Node>) {
    forall e :: e in edges ==> e.source in nodes && e.target in nodes
  }

  lemma CanonicalLinesIn(db: Db, frontier: set<Id>)
    ensures EndsIn(CanonicalLines(db, frontier), Nodes(frontier + Discovered(db, frontier)))
  {
    forall x | x in CanonicalRows(db, frontier)
      ensures x.subject in frontier + Discovered(db, frontier) && x.obj in frontier + Discovered(db, frontier)
    {
      assert x.subject in EndsOf(CanonicalRows(db, frontier)) && x.obj in EndsOf(CanonicalRows(db, frontier));
    }
  }

  lemma SourceEndDrawn(db: Db, frontier: set<Id>, s: SourceId)
    requires s in EndsAt(db, frontier) && s in db.sources
    ensures NodeOf(db, frontier, s)
            in Nodes(SourceConcepts(db, frontier)) + CategoryNodes(db, CategoriesAll(db, frontier))
  {
    RoundCategories(db, frontier, s);
    if ConceptsOf(db, s) != {} {
      assert Least(Candidates(db, frontier, s)) in SourceConcepts(db, frontier);
    }
  }

  lemma SourceLinesIn(db: Db, frontier: set<Id>)
    ensures EndsIn(SourceLines(db, frontier),
                   Nodes(SourceConcepts(db, frontier)) + CategoryNodes(db, CategoriesAll(db, frontier)))
  {
    forall x | x in RowsAt(db, frontier) && x.subject in db.sources && x.obj in db.sources
      ensures NodeOf(db, frontier, x.subject)
              in Nodes(SourceConcepts(db, frontier)) + CategoryNodes(db, CategoriesAll(db, frontier))
      ensures NodeOf(db, frontier, x.obj)
              in Nodes(SourceConcepts(db, frontier)) + CategoryNodes(db, CategoriesAll(db, frontier))
    {
      SourceEndDrawn(db, frontier, x.subject);
      SourceEndDrawn(db, frontier, x.obj);
    }
  }

  lemma MemberLinesIn(q: Query, categories: set<SourceId>, members: Memberships)
    ensures EndsIn(MemberLines(q, categories, members),
                   Nodes(AllKept(q, categories)) + CategoryNodes(q.db, categories))
  {
    forall e | e in MemberLines(q, categories, members)
      ensures e.source in Nodes(AllKept(q, categories)) && e.target in CategoryNodes(q.db, categories)
    {
      var k :| k in categories && k in q.db.sources && k in members && e in MemberLinesOf(q, k, members[k]);
      assert e.source.id in AllKept(q, categories);
    }
  }

  lemma EndsInMore(edges: set<Edge>, nodes: set<Node>, more: set<Node>)
    requires EndsIn(edges, nodes) && nodes <= more
    ensures EndsIn(edges, more)
  {
  }

  lemma NodesGrow(db: Db, a: set<Id>, b: set<Id>, j: set<SourceId>, k: set<SourceId>)
    requires a <= b && j <= k
    ensures Nodes(a) + CategoryNodes(db, j) <= Nodes(b) + CategoryNodes(db, k)
  {
  }

  lemma RoundEndsIn(q: Query, s: Stage, members: Memberships)
    requires s.frontier <= s.seen && q.selected in s.seen
    ensures EndsIn(RoundEdges(q, s, members), StageNodes(q, NextStage(q, s)))
  {
    var next, newOnes := NextStage(q, s), NewCategories(q, s);
    CanonicalLinesIn(q.db, s.frontier);
    NodesGrow(q.db, s.frontier + Discovered(q.db, s.frontier), next.seen, {}, next.cats);
    EndsInMore(CanonicalLines(q.db, s.frontier), Nodes(s.frontier + Discovered(q.db, s.frontier)), StageNodes(q, next));
    SourceLinesIn(q.db, s.frontier);
    NodesGrow(q.db, SourceConcepts(q.db, s.frontier), next.seen, CategoriesAll(q.db, s.frontier), next.cats);
    MemberLinesIn(q, newOnes, members);
    NodesGrow(q.db, AllKept(q, newOnes), next.seen, newOnes, next.cats);
  }

  /** No edge is drawn without both its ends. */
  lemma EdgesJoinNodes(q: Query, rounds: nat, members: Memberships)
    ensures EndsIn(EdgesBy(q, rounds, members), StageNodes(q, StageAt(q, rounds)))
  {
    forall i: nat | i < rounds
      ensures EndsIn(EdgesOfRound(q, members)(i), StageNodes(q, StageAt(q, rounds)))
    {
      RoundEndsStay(q, i, rounds, members);
    }
    AllEndsIn(EdgesOfRound(q, members), rounds, StageNodes(q, StageAt(q, rounds)));
  }

  lemma RoundEndsStay(q: Query, i: nat, rounds: nat, members: Memberships)
    requires i < rounds
    ensures EndsIn(EdgesOfRound(q, members)(i), StageNodes(q, StageAt(q, rounds)))
  {
    FrontierIsSeen(q, i);
    StageNext(q, i);
    StagesGrow(q, i + 1, rounds);
    RoundEndsLater(q, StageAt(q, i), StageAt(q, i + 1), StageAt(q, rounds), members);
  }

  lemma StageNext(q: Query, rounds: nat)
    ensures StageAt(q, rounds + 1) == NextStage(q, StageAt(q, rounds))
  {
  }

  lemma RoundEndsLater(q: Query, s: Stage, s': Stage, last: Stage, members: Memberships)
    requires s.frontier <= s.seen && q.selected in s.seen && s' == NextStage(q, s)
    requires s'.seen <= last.seen && s'.cats <= last.cats
    ensures EndsIn(RoundEdges(q, s, members), StageNodes(q, last))
  {
    RoundEndsIn(q, s, members);
    NodesGrow(q.db, s'.seen, last.seen, s'.cats, last.cats);
    EndsInMore(RoundEdges(q, s, members), StageNodes(q, s'), StageNodes(q, last));
  }

  lemma AllEndsIn(part: nat -> set<Edge>, rounds: nat, nodes: set<Node>)
    requires forall i: nat :: i < rounds ==> EndsIn(part(i), nodes)
    ensures EndsIn(Before(part, rounds), nodes)
  {
  }

  // ---------------------------------------------------------------- the answer

  /** The selected node is kept, there are min(limit, all) nodes, and nothing is listed twice. */
  lemma AnswerNodes(q: Query, rounds: nat, limit: nat, orders: Orders, members: Memberships, g: Graph)
    requires IsAnswer(q, rounds, limit, orders, members, g) && limit >= 1
    ensures Canonical(q.selected) in g.nodes && NoDuplicates(g.nodes)
    ensures var all := StageNodes(q, StageAt(q, rounds));
            && |g.nodes| == (if |all| <= limit then |all| else limit)
            && (forall n :: n in g.nodes ==> n in all)
            && (|all| <= limit ==> forall n :: n in all ==> n in g.nodes)
  {
    var all := StageNodes(q, StageAt(q, rounds));
    FrontierIsSeen(q, rounds);
    assert Canonical(q.selected) in all;
    LimitKeepsSelected(orders, all, Canonical(q.selected), limit);
    var kept := KeptNodes(orders, all, Canonical(q.selected), limit);
    InOrderMembers(orders.byNode, kept);
    InOrderSize(orders.byNode, kept);
  }

  /** An edge is listed exactly when both its ends are and some round drew it. */
  lemma AnswerEdges(q: Query, rounds: nat, limit: nat, orders: Orders, members: Memberships, g: Graph, e: Edge)
    requires IsAnswer(q, rounds, limit, orders, members, g)
    ensures NoDuplicates(g.edges)
    ensures e in g.edges <==>
              && e.source in g.nodes && e.target in g.nodes
              && exists i: nat :: i < rounds && e in EdgesOfRound(q, members)(i)
  {
    var kept := KeptNodes(orders, StageNodes(q, StageAt(q, rounds)), Canonical(q.selected), limit);
    InOrderMembers(orders.byNode, kept);
    InOrderMembers(orders.byEdge, KeptEdges(EdgesBy(q, rounds, members), kept));
  }

  /** Every node listed can be reached in so many rounds. */
  lemma AnswerIsReachable(q: Query, rounds: nat, limit: nat, orders: Orders, members: Memberships, g: Graph)
    requires IsAnswer(q, rounds, limit, orders, members, g) && limit >= 1 && q.cap >= 1
    ensures forall n :: n in g.nodes ==>
              n in Nodes(Within(q.db, q.selected, rounds))
                   + CategoryNodes(q.db, CategoriesWithin(q.db, q.selected, rounds))
  {
    AnswerNodes(q, rounds, limit, orders, members, g);
    FoundIsReachable(q, rounds);
    NodesGrow(q.db, StageAt(q, rounds).seen, Within(q.db, q.selected, rounds),
              StageAt(q, rounds).cats, CategoriesWithin(q.db, q.selected, rounds));
  }

  /**
   Not truncated, whatever the mappings: every node and every edge of the rounds is listed, and a larger
   cap would have found no other.
   */
  lemma UntruncatedDropsNothing(q: Query, rounds: nat, limit: nat, orders: Orders, members: Memberships, g: Graph)
    requires IsAnswer(q, rounds, limit, orders, members, g) && limit >= 1 && q.cap >= 1 && !g.truncated
    ensures forall n :: n in g.nodes <==> n in StageNodes(q, StageAt(q, rounds))
    ensures forall e :: e in g.edges <==> e in EdgesBy(q, rounds, members)
    ensures forall larger: nat :: larger >= q.cap ==> StageAt(q.(cap := larger), rounds) == StageAt(q, rounds)
  {
    AnswerNodes(q, rounds, limit, orders, members, g);
    EdgesJoinNodes(q, rounds, members);
    forall e
      ensures e in g.edges <==> e in EdgesBy(q, rounds, members)
    {
      AnswerEdges(q, rounds, limit, orders, members, g, e);
    }
    forall larger: nat | larger >= q.cap
      ensures StageAt(q.(cap := larger), rounds) == StageAt(q, rounds)
    {
      LargerCapSame(q, larger, rounds);
    }
  }

  /** Not truncated, and no source mapped twice: exactly what can be reached is listed. */
  lemma UntruncatedIsComplete(q: Query, rounds: nat, limit: nat, orders: Orders, members: Memberships, g: Graph)
    requires IsAnswer(q, rounds, limit, orders, members, g) && limit >= 1 && q.cap >= 1 && SingleMapping(q.db)
    requires !g.truncated
    ensures forall n :: n in g.nodes <==>
              n in Nodes(Within(q.db, q.selected, rounds))
                   + CategoryNodes(q.db, CategoriesWithin(q.db, q.selected, rounds))
  {
    AnswerNodes(q, rounds, limit, orders, members, g);
    UncappedIsComplete(q, rounds);
  }

  // ---------------------------------------------------------------- a source mapped twice

  const TWICE: Db :=
    Db({0, 1, 2}, {}, map[10 := SourceRow("onet", "a"), 11 := SourceRow("onet", "b")],
       {SourceEdge(10, "IS_A", 11)}, {(10, 0), (11, 1), (11, 2)})

  /** Where a source has two concepts, the search follows the least one only: concept 2 is missed, untruncated. */
  lemma MappedTwiceMissed(q: Query, rounds: nat, limit: nat, orders: Orders, members: Memberships, g: Graph)
    requires q.db == TWICE && q.selected == 0 && rounds == 1 && limit >= 2
    requires IsAnswer(q, rounds, limit, orders, members, g)
    ensures WellFormed(q.db) && 2 in Within(q.db, q.selected, rounds)
    ensures Canonical(2) !in g.nodes && !g.truncated
  {
    TwiceIsWellFormed();
    var s := Stage({1}, {0, 1}, {});
    TwiceReached();
    TwiceStage(q);
    TwiceUncapped(q);
    TwiceNodes(q, s);
    SmallAnswer(q, rounds, limit, orders, members, g, s);
  }

  /** With no cap exceeded and no more nodes than the limit, the answer lists all of them. */
  lemma SmallAnswer(q: Query, rounds: nat, limit: nat, orders: Orders, members: Memberships, g: Graph, s: Stage)
    requires IsAnswer(q, rounds, limit, orders, members, g) && s == StageAt(q, rounds)
    requires !CappedBy(q, rounds) && |StageNodes(q, s)| <= limit
    ensures !g.truncated && forall n :: n in g.nodes <==> n in StageNodes(q, s)
  {
    InOrderMembers(orders.byNode, StageNodes(q, s));
  }

  lemma TwiceIsWellFormed()
    ensures WellFormed(TWICE)
  {
  }

  lemma TwiceReached()
    ensures 2 in Within(TWICE, 0, 1)
  {
    TwiceTables();
    assert 11 in Across(TWICE, 0) && 2 in ConceptsOf(TWICE, 11);
    assert 2 in Near(TWICE, 0);
    NextLevel(TWICE, 0, 0, {0});
  }

  lemma TwiceNodes(q: Query, s: Stage)
    requires s == Stage({1}, {0, 1}, {})
    ensures StageNodes(q, s) == {Canonical(0), Canonical(1)} && |StageNodes(q, s)| == 2
  {
    assert StageNodes(q, s) == {Canonical(0), Canonical(1)};
  }

  lemma TwiceUncapped(q: Query)
    requires q.db == TWICE && q.selected == 0
    ensures !CappedBy(q, 1)
  {
    NoNewCategories(q, StageAt(q, 0));
    assert !OverCapInRound(q)(0);
  }

  lemma NoNewCategories(q: Query, s: Stage)
    requires q.db == TWICE && s.frontier == {0}
    ensures CategoriesAll(TWICE, {0}) == {} && NewCategories(q, s) == {} && !OverCap(q, NewCategories(q, s))
    ensures AllKept(q, NewCategories(q, s)) == {}
  {
    TwiceTables();
    assert CategoriesOf(TWICE, 0) == {};
  }

  lemma TwiceTables()
    ensures ConceptsOf(TWICE, 10) == {0} && ConceptsOf(TWICE, 11) == {1, 2}
    ensures FrontierSources(TWICE, {0}) == {10} && EndsAt(TWICE, {0}) == {10, 11}
    ensures Discovered(TWICE, {0}) == {} && Across(TWICE, 0) == {11}
  {
    assert (10, 0) in TWICE.mappings && (11, 1) in TWICE.mappings && (11, 2) in TWICE.mappings;
    var e := SourceEdge(10, "IS_A", 11);
    assert FrontierSources(TWICE, {0}) == {10};
    assert RowsAt(TWICE, {0}) == {e};
    assert SourcesOf(TWICE, 0) == {10};
    assert Opposite(TWICE, 10) == {11};
  }

  lemma TwiceConcepts()
    ensures SourceConcepts(TWICE, {0}) == {0, 1}
  {
    TwiceTables();
    assert Candidates(TWICE, {0}, 10) == {0} && Candidates(TWICE, {0}, 11) == {1, 2};
    assert Least({1, 2}) == 1;
    assert 10 in EndsAt(TWICE, {0}) && 11 in EndsAt(TWICE, {0});
  }

  lemma TwiceStage(q: Query)
    requires q.db == TWICE && q.selected == 0
    ensures StageAt(q, 1) == Stage({1}, {0, 1}, {})
  {
    TwiceTables();
    TwiceConcepts();
    NoNewCategories(q, Start(q));
    assert NextOf(q, Start(q)) == {0, 1};
    FirstStage(q, {0, 1});
    assert {0, 1} - {0} == {1} && {0} + {0, 1} == {0, 1};
  }

  lemma FirstStage(q: Query, next: set<Id>)
    requires NextOf(q, Start(q)) == next && CategoriesAll(q.db, {q.selected}) == {}
    ensures StageAt(q, 1) == Stage(next - {q.selected}, {q.selected} + next, {})
  {
    StageNext(q, 0);
  }
}
