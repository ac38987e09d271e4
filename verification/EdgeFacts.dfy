/**
 What the answer of concept_neighborhood lists, in terms of the rows: which edges and which way they run,
 which members and nodes stay when not all fit, and in which order all is listed.
 */
module EdgeFacts {
  import opened ConceptGraph
  import opened Exploration
  import opened ExplorationFacts
  import opened Ordering
  import opened Seqs

  // ---------------------------------------------------------------- canonical edges

  /** Some canonical row at this frontier runs from the edge's source to its target under its relation. */
  ghost predicate FromCanonicalRow(db: Db, frontier: set<Id>, x: Edge) {
    exists e :: && e in db.edges && (e.subject in frontier || e.obj in frontier)
                && x.source == Canonical(e.subject) && x.target == Canonical(e.obj) && x.relation == e.relation
  }

  lemma CanonicalLineIff(db: Db, frontier: set<Id>, x: Edge)
    ensures x in CanonicalLines(db, frontier) <==> x.layer == CanonicalLayer && FromCanonicalRow(db, frontier, x)
  {
    if x in CanonicalLines(db, frontier) {
      var e :| e in CanonicalRows(db, frontier) && x == CanonicalLine(e);
      assert e in db.edges;
    }
    if x.layer == CanonicalLayer && FromCanonicalRow(db, frontier, x) {
      var e :| e in db.edges && (e.subject in frontier || e.obj in frontier)
               && x.source == Canonical(e.subject) && x.target == Canonical(e.obj) && x.relation == e.relation;
      assert e in CanonicalRows(db, frontier);
      assert CanonicalLine(e) == x;
    }
  }

  // ---------------------------------------------------------------- source edges

  ghost predicate AtFrontierOf(db: Db, frontier: set<Id>, s: SourceId) {
    exists c :: c in frontier && (s, c) in db.mappings
  }

  /** The least concept of the source that is among these. */
  ghost predicate IsLeastOf(db: Db, among: set<Id>, s: SourceId, c: Id) {
    c in among && (s, c) in db.mappings && forall d :: d in among && (s, d) in db.mappings ==> c <= d
  }

  /** A source is drawn as the least of its concepts at the frontier, else of all its concepts, else as itself. */
  ghost predicate DrawnAs(db: Db, frontier: set<Id>, s: SourceId, n: Node)
    requires s in db.sources
  {
    if AtFrontierOf(db, frontier, s) then exists c :: n == Canonical(c) && IsLeastOf(db, frontier, s, c)
    else if AtFrontierOf(db, db.concepts, s) then exists c :: n == Canonical(c) && IsLeastOf(db, db.concepts, s, c)
    else n == Synthetic(db.sources[s].source, db.sources[s].externalId)
  }

  lemma FrontierConcepts(db: Db, frontier: set<Id>, s: SourceId)
    ensures forall c :: c in ConceptsOf(db, s) * frontier <==> c in frontier && (s, c) in db.mappings
  {
    forall c | c in frontier && (s, c) in db.mappings
      ensures c in ConceptsOf(db, s)
    {
      var m := (s, c);
      assert m in db.mappings;
    }
  }

  lemma NodeOfIff(db: Db, frontier: set<Id>, s: SourceId, n: Node)
    requires WellFormed(db) && s in db.sources
    ensures n == NodeOf(db, frontier, s) <==> DrawnAs(db, frontier, s, n)
  {
    FrontierConcepts(db, frontier, s);
    FrontierConcepts(db, db.concepts, s);
    forall c | c in ConceptsOf(db, s)
      ensures c in db.concepts
    {
      assert (s, c) in db.mappings;
    }
    assert ConceptsOf(db, s) * db.concepts == ConceptsOf(db, s);
    var near, all := ConceptsOf(db, s) * frontier, ConceptsOf(db, s);
    assert near != {} <==> AtFrontierOf(db, frontier, s);
    assert all != {} <==> AtFrontierOf(db, db.concepts, s);
    if near != {} {
      assert IsLeastOf(db, frontier, s, Least(near));
    } else if all != {} {
      assert IsLeastOf(db, db.concepts, s, Least(all));
    }
  }

  /** Some source row at this frontier runs from the edge's source to its target under its relation. */
  ghost predicate FromSourceRow(db: Db, frontier: set<Id>, x: Edge) {
    exists e :: && e in db.sourceEdges && e.subject in db.sources && e.obj in db.sources
                && (AtFrontierOf(db, frontier, e.subject) || AtFrontierOf(db, frontier, e.obj))
                && DrawnAs(db, frontier, e.subject, x.source) && DrawnAs(db, frontier, e.obj, x.target)
                && x.relation == e.relation
  }

  lemma RowAtFrontier(db: Db, frontier: set<Id>, e: SourceEdge)
    ensures e in RowsAt(db, frontier) <==>
              e in db.sourceEdges && (AtFrontierOf(db, frontier, e.subject) || AtFrontierOf(db, frontier, e.obj))
  {
    MappedTo(db, frontier, e.subject);
    MappedTo(db, frontier, e.obj);
  }

  lemma MappedTo(db: Db, frontier: set<Id>, s: SourceId)
    ensures s in FrontierSources(db, frontier) <==> AtFrontierOf(db, frontier, s)
  {
    if c :| c in frontier && (s, c) in db.mappings {
      var m := (s, c);
      assert m in db.mappings && m.1 in frontier;
    }
  }

  lemma SourceLineIff(db: Db, frontier: set<Id>, x: Edge)
    requires WellFormed(db)
    ensures x in SourceLines(db, frontier) <==> x.layer == SourceLayer && FromSourceRow(db, frontier, x)
  {
    if x in SourceLines(db, frontier) {
      var e :| e in RowsAt(db, frontier) && e.subject in db.sources && e.obj in db.sources
               && x == SourceLine(db, frontier, e);
      RowAtFrontier(db, frontier, e);
      NodeOfIff(db, frontier, e.subject, x.source);
      NodeOfIff(db, frontier, e.obj, x.target);
    }
    if x.layer == SourceLayer && FromSourceRow(db, frontier, x) {
      var e :| && e in db.sourceEdges && e.subject in db.sources && e.obj in db.sources
               && (AtFrontierOf(db, frontier, e.subject) || AtFrontierOf(db, frontier, e.obj))
               && DrawnAs(db, frontier, e.subject, x.source) && DrawnAs(db, frontier, e.obj, x.target)
               && x.relation == e.relation;
      RowAtFrontier(db, frontier, e);
      NodeOfIff(db, frontier, e.subject, x.source);
      NodeOfIff(db, frontier, e.obj, x.target);
      assert SourceLine(db, frontier, e) == x;
    }
  }

  // ---------------------------------------------------------------- member edges

  /** The edge runs from a kept member of a newly met category to it, under the relation of one of its rows. */
  ghost predicate FromMember(q: Query, s: Stage, members: Memberships, x: Edge) {
    exists k, c :: && k in CategoriesAll(q.db, s.frontier) && k !in s.cats && k in q.db.sources
                   && c in KeptMembers(q, k) && k in members && c in members[k]
                   && x.source == Canonical(c)
                   && x.target == Synthetic(q.db.sources[k].source, q.db.sources[k].externalId)
                   && x.relation == members[k][c]
  }

  lemma MemberLineIff(q: Query, s: Stage, members: Memberships, x: Edge)
    ensures x in MemberLines(q, NewCategories(q, s), members) <==>
              x.layer == SourceLayer && FromMember(q, s, members, x)
  {
    if x in MemberLines(q, NewCategories(q, s), members) {
      var k :| k in NewCategories(q, s) && k in q.db.sources && k in members && x in MemberLinesOf(q, k, members[k]);
      var c :| c in KeptMembers(q, k) && c in members[k]
               && x == Edge(Canonical(c), SyntheticNode(q.db, k), members[k][c], SourceLayer);
    }
    if x.layer == SourceLayer && FromMember(q, s, members, x) {
      var k, c :| && k in CategoriesAll(q.db, s.frontier) && k !in s.cats && k in q.db.sources
                  && c in KeptMembers(q, k) && k in members && c in members[k]
                  && x.source == Canonical(c)
                  && x.target == Synthetic(q.db.sources[k].source, q.db.sources[k].externalId)
                  && x.relation == members[k][c];
      assert x == Edge(Canonical(c), SyntheticNode(q.db, k), members[k][c], SourceLayer);
      assert x in MemberLinesOf(q, k, members[k]);
    }
  }

  // ---------------------------------------------------------------- the answer's edges

  /** A round draws a canonical row at its frontier. */
  ghost function CanonicalDrawn(q: Query, x: Edge): nat -> bool {
    (i: nat) => FromCanonicalRow(q.db, StageAt(q, i).frontier, x)
  }

  /** A round draws a source row at its frontier, or a member of a category it meets. */
  ghost function SourceDrawn(q: Query, members: Memberships, x: Edge): nat -> bool {
    (i: nat) => FromSourceRow(q.db, StageAt(q, i).frontier, x) || FromMember(q, StageAt(q, i), members, x)
  }

  lemma RoundEdgeIff(q: Query, members: Memberships, i: nat, x: Edge)
    requires WellFormed(q.db)
    ensures x in EdgesOfRound(q, members)(i) <==>
              if x.layer == CanonicalLayer then CanonicalDrawn(q, x)(i) else SourceDrawn(q, members, x)(i)
  {
    var s := StageAt(q, i);
    CanonicalLineIff(q.db, s.frontier, x);
    SourceLineIff(q.db, s.frontier, x);
    MemberLineIff(q, s, members, x);
  }

  lemma CanonicalRounds(q: Query, members: Memberships, x: Edge)
    requires WellFormed(q.db) && x.layer == CanonicalLayer
    ensures forall i: nat :: x in EdgesOfRound(q, members)(i) <==> CanonicalDrawn(q, x)(i)
  {
    forall i: nat
      ensures x in EdgesOfRound(q, members)(i) <==> CanonicalDrawn(q, x)(i)
    {
      RoundEdgeIff(q, members, i, x);
    }
  }

  lemma SourceRounds(q: Query, members: Memberships, x: Edge)
    requires WellFormed(q.db) && x.layer == SourceLayer
    ensures forall i: nat :: x in EdgesOfRound(q, members)(i) <==> SourceDrawn(q, members, x)(i)
  {
    forall i: nat
      ensures x in EdgesOfRound(q, members)(i) <==> SourceDrawn(q, members, x)(i)
    {
      RoundEdgeIff(q, members, i, x);
    }
  }

  lemma EdgeListedIff(q: Query, rounds: nat, limit: nat, orders: Orders, members: Memberships, g: Graph, x: Edge,
                      drawn: nat -> bool)
    requires IsAnswer(q, rounds, limit, orders, members, g)
    requires forall i: nat :: x in EdgesOfRound(q, members)(i) <==> drawn(i)
    ensures x in g.edges <==> x.source in g.nodes && x.target in g.nodes && EverBefore(drawn, rounds)
  {
    AnswerEdges(q, rounds, limit, orders, members, g, x);
  }

  /**
   An edge of the canonical layer is listed if and only if both its ends are, and some row with an end at
   the frontier of one of the rounds runs from its source to its target under its relation.
   */
  lemma CanonicalEdgeListed(q: Query, rounds: nat, limit: nat, orders: Orders, members: Memberships, g: Graph, x: Edge)
    requires WellFormed(q.db) && IsAnswer(q, rounds, limit, orders, members, g) && x.layer == CanonicalLayer
    ensures x in g.edges <==>
              x.source in g.nodes && x.target in g.nodes && EverBefore(CanonicalDrawn(q, x), rounds)
  {
    CanonicalRounds(q, members, x);
    EdgeListedIff(q, rounds, limit, orders, members, g, x, CanonicalDrawn(q, x));
  }

  /**
   An edge of the source layer is listed if and only if both its ends are, and in one of the rounds some
   source row at the frontier runs from what its source stands for to what its target stands for, or it runs
   from a kept member to a category newly met.
   */
  lemma SourceEdgeListed(q: Query, rounds: nat, limit: nat, orders: Orders, members: Memberships, g: Graph, x: Edge)
    requires WellFormed(q.db) && IsAnswer(q, rounds, limit, orders, members, g) && x.layer == SourceLayer
    ensures x in g.edges <==>
              x.source in g.nodes && x.target in g.nodes && EverBefore(SourceDrawn(q, members, x), rounds)
  {
    SourceRounds(q, members, x);
    EdgeListedIff(q, rounds, limit, orders, members, g, x, SourceDrawn(q, members, x));
  }

  // ---------------------------------------------------------------- what is kept when not all fits

  lemma {:induction false} KeepSorted<T(!new)>(leq: (T, T) -> bool, s: seq<T>, x: T, same: bool)
    requires TotalPreorder(leq) && Sorted(leq, s)
    ensures Sorted(leq, Keep(s, x, same))
    ensures forall y :: y in Keep(s, x, same) ==> y in s
  {
    if s != [] {
      KeepSorted(leq, s[1..], x, same);
      var rest := Keep(s[1..], x, same);
      assert s == [s[0]] + s[1..];
      forall y | y in rest
        ensures leq(s[0], y)
      {
        var i :| 0 <= i < |s[1..]| && s[1..][i] == y;
        assert s[i + 1] == y;
      }
    }
  }

  /** What is cut off a sorted list comes after what is kept of it. */
  lemma CutComesAfter<T(!new)>(leq: (T, T) -> bool, others: seq<T>, left: nat, x: T, y: T)
    requires Sorted(leq, others) && left <= |others| && x in others[..left] && y in others && y !in others[..left]
    ensures leq(x, y)
  {
    var i :| 0 <= i < left && others[i] == x;
    var j :| 0 <= j < |others| && others[j] == y;
    InPrefix(others, left, j);
  }

  lemma InPrefix<T>(s: seq<T>, left: nat, j: nat)
    requires left <= |s| && j < |s|
    ensures j < left ==> s[j] in s[..left]
  {
    if j < left {
      assert s[..left][j] == s[j];
    }
  }

  /**
   When a category has more members than the cap, the selected concept apart, the ones drawn come before the
   ones left out in name order.
   */
  lemma FirstMembersKept(q: Query, k: SourceId, c: Id, d: Id)
    requires IsOrder(q.byName) && q.cap >= 1
    requires c in KeptMembers(q, k) && d in MappedEnds(q.db, k) && d !in KeptMembers(q, k) && c != q.selected
    ensures q.byName(c, d)
  {
    var ranked := InOrder(q.byName, MappedEnds(q.db, k));
    CapKeepsSelected(q, k);
    InOrderMembers(q.byName, MappedEnds(q.db, k));
    SortSorted(q.byName, SomeList(MappedEnds(q.db, k)));
    assert d != q.selected && |ranked| > q.cap by {
      InOrderSize(q.byName, MappedEnds(q.db, k));
    }
    KeepSorted(q.byName, ranked, q.selected, false);
    KeepFacts(ranked, q.selected);
    var mine, others := Keep(ranked, q.selected, true), Keep(ranked, q.selected, false);
    FirstOthersKept(q.byName, mine, others, q.cap, c, d);
  }

  lemma FirstOthersKept<T(!new)>(leq: (T, T) -> bool, mine: seq<T>, others: seq<T>, cap: nat, x: T, y: T)
    requires Sorted(leq, others) && x in others && x !in mine && y in others
    requires x in SelectedFirst(mine, others, cap) && y !in SelectedFirst(mine, others, cap)
    ensures leq(x, y)
  {
    var left := if cap < |mine| then 0 else cap - |mine|;
    left := if left < |others| then left else |others|;
    assert SelectedFirst(mine, others, cap) == mine + others[..left];
    CutComesAfter(leq, others, left, x, y);
  }

  /** With more nodes than the limit, the listed ones, the selected one apart, come before the ones left out. */
  lemma FirstNodesKept(orders: Orders, all: set<Node>, selected: Node, limit: nat, n: Node, m: Node)
    requires IsOrder(orders.byNode) && limit >= 1 && selected in all
    requires n in KeptNodes(orders, all, selected, limit) && m in all && m !in KeptNodes(orders, all, selected, limit)
    requires n != selected
    ensures orders.byNode(n, m)
  {
    LimitKeepsSelected(orders, all, selected, limit);
    var others := InOrder(orders.byNode, all - {selected});
    InOrderMembers(orders.byNode, all - {selected});
    SortSorted(orders.byNode, SomeList(all - {selected}));
    FirstOthersKept(orders.byNode, [selected], others, limit, n, m);
  }

  /** Nodes and edges are listed in their orders. */
  lemma AnswerIsSorted(q: Query, rounds: nat, limit: nat, orders: Orders, members: Memberships, g: Graph)
    requires IsAnswer(q, rounds, limit, orders, members, g) && IsOrder(orders.byNode) && IsOrder(orders.byEdge)
    ensures Sorted(orders.byNode, g.nodes) && Sorted(orders.byEdge, g.edges)
  {
    var kept := KeptNodes(orders, StageNodes(q, StageAt(q, rounds)), Canonical(q.selected), limit);
    SortSorted(orders.byNode, SomeList(kept));
    SortSorted(orders.byEdge, SomeList(KeptEdges(EdgesBy(q, rounds, members), kept)));
  }
}
