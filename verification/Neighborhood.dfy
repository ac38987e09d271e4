/** concept_neighborhood and its expanders as the source writes them, proved to compute the answer. */
module Neighborhood {
  import opened ConceptGraph
  import opened Exploration
  import opened ExplorationFacts
  import opened Ordering
  import opened Seqs
  import opened Wrappers

  const GRAPH_MAX_DEPTH := 2
  const GRAPH_MAX_LIMIT := 500

  function Clamp(value: int, low: int, high: int): int {
    var capped := if high < value then high else value;
    if low > capped then low else capped
  }

  /** A depth is 1 or 2, and a limit between 1 and 500, whatever is asked for. */
  lemma BoundsAre(depth: int, limit: int)
    ensures Clamp(depth, 1, GRAPH_MAX_DEPTH) == if depth <= 1 then 1 else 2
    ensures Clamp(limit, 1, GRAPH_MAX_LIMIT) == if limit < 1 then 1 else if limit > 500 then 500 else limit
  {
  }

  // ---------------------------------------------------------------- the least concept of each source

  function IdsFor(rows: set<(SourceId, Id)>, s: SourceId): set<Id> {
    set m | m in rows && m.0 == s :: m.1
  }

  /** Each source of these rows to the least of its concepts. */
  ghost predicate IsLeastMap(rep: map<SourceId, Id>, rows: set<(SourceId, Id)>) {
    forall s :: (s in rep <==> IdsFor(rows, s) != {}) && (s in rep ==> rep[s] == Least(IdsFor(rows, s)))
  }

  lemma LeastUnique(ids: set<Id>, x: Id)
    requires x in ids && forall y :: y in ids ==> x <= y
    ensures Least(ids) == x
  {
  }

  lemma IdsForOneMore(rows: set<(SourceId, Id)>, m: (SourceId, Id), s: SourceId)
    ensures IdsFor(rows + {m}, s) == if s == m.0 then IdsFor(rows, s) + {m.1} else IdsFor(rows, s)
  {
  }

  lemma LeastOfOneMore(ids: set<Id>, x: Id)
    ensures Least(ids + {x}) == if ids == {} || x < Least(ids) then x else Least(ids)
  {
    LeastUnique(ids + {x}, if ids == {} || x < Least(ids) then x else Least(ids));
  }

  lemma LeastStep(rep: map<SourceId, Id>, rows: set<(SourceId, Id)>, m: (SourceId, Id))
    requires IsLeastMap(rep, rows)
    ensures IsLeastMap(if m.0 !in rep || m.1 < rep[m.0] then rep[m.0 := m.1] else rep, rows + {m})
  {
    var rep' := if m.0 !in rep || m.1 < rep[m.0] then rep[m.0 := m.1] else rep;
    LeastOfOneMore(IdsFor(rows, m.0), m.1);
    forall s: SourceId
      ensures s in rep' <==> IdsFor(rows + {m}, s) != {}
      ensures s in rep' ==> rep'[s] == Least(IdsFor(rows + {m}, s))
    {
      IdsForOneMore(rows, m, s);
    }
  }

  /** The loop that keeps the smaller concept of a source mapped twice. */
  method LeastConcepts(rows: set<(SourceId, Id)>) returns (rep: map<SourceId, Id>)
    ensures IsLeastMap(rep, rows)
  {
    rep := map[];
    var rest := rows;
    ghost var done: set<(SourceId, Id)> := {};
    while rest != {}
      invariant done + rest == rows && IsLeastMap(rep, done)
      decreases rest
    {
      var m :| m in rest;
      LeastStep(rep, done, m);
      if m.0 !in rep || m.1 < rep[m.0] {
        rep := rep[m.0 := m.1];
      }
      rest, done := rest - {m}, done + {m};
    }
    assert done == rows;
  }

  lemma NearRows(db: Db, frontier: set<Id>, s: SourceId)
    ensures IdsFor((set m | m in db.mappings && m.1 in frontier), s) == ConceptsOf(db, s) * frontier
  {
    var rows := set m | m in db.mappings && m.1 in frontier;
    forall c: Id
      ensures c in IdsFor(rows, s) <==> c in ConceptsOf(db, s) * frontier
    {
      if c in ConceptsOf(db, s) * frontier {
        assert (s, c) in rows;
      }
    }
  }

  lemma FarRows(db: Db, related: set<SourceId>, s: SourceId)
    ensures IdsFor((set m | m in db.mappings && m.0 in related), s) == if s in related then ConceptsOf(db, s) else {}
  {
    var rows := set m | m in db.mappings && m.0 in related;
    forall c: Id
      ensures c in IdsFor(rows, s) <==> s in related && c in ConceptsOf(db, s)
    {
      if s in related && c in ConceptsOf(db, s) {
        assert (s, c) in rows;
      }
    }
  }

  /** The source_to_canonical dict of a round: every mapped end to what it is drawn as. */
  ghost predicate IsRep(db: Db, frontier: set<Id>, rep: map<SourceId, Id>) {
    && (forall s :: s in EndsAt(db, frontier) ==> (s in rep <==> ConceptsOf(db, s) != {}))
    && (forall s :: s in rep ==> ConceptsOf(db, s) != {} && rep[s] == Least(Candidates(db, frontier, s)))
    && (forall s :: s in rep ==> rep[s] in frontier || s in EndsAt(db, frontier))
  }

  lemma RepIsRight(db: Db, frontier: set<Id>, near: map<SourceId, Id>, far: map<SourceId, Id>)
    requires IsLeastMap(near, set m | m in db.mappings && m.1 in frontier)
    requires IsLeastMap(far, set m | m in db.mappings && m.0 in EndsAt(db, frontier) - FrontierSources(db, frontier))
    ensures IsRep(db, frontier, near + far)
  {
    forall s: SourceId
      ensures s in EndsAt(db, frontier) ==> (s in near + far <==> ConceptsOf(db, s) != {})
      ensures s in near + far ==>
                && ConceptsOf(db, s) != {} && (near + far)[s] == Least(Candidates(db, frontier, s))
                && ((near + far)[s] in frontier || s in EndsAt(db, frontier))
    {
      AtFrontier(db, frontier, s);
      NearRows(db, frontier, s);
      FarRows(db, EndsAt(db, frontier) - FrontierSources(db, frontier), s);
    }
  }

  // ---------------------------------------------------------------- drawing source edges

  /** _resolve_source_node */
  function Draw(db: Db, rep: map<SourceId, Id>, s: SourceId): Node
    requires s in db.sources
  {
    if s in rep then Canonical(rep[s]) else SyntheticNode(db, s)
  }

  function DrawEdge(db: Db, rep: map<SourceId, Id>, e: SourceEdge): Edge
    requires e.subject in db.sources && e.obj in db.sources
  {
    Edge(Draw(db, rep, e.subject), Draw(db, rep, e.obj), e.relation, SourceLayer)
  }

  function DrawnNodes(db: Db, rep: map<SourceId, Id>, ends: set<SourceId>): set<Node>
    requires ends <= db.sources.Keys
  {
    set s | s in ends :: Draw(db, rep, s)
  }

  function DrawnConcepts(rep: map<SourceId, Id>, ends: set<SourceId>): set<Id> {
    set s | s in ends && s in rep :: rep[s]
  }

  function DrawnEdges(db: Db, rep: map<SourceId, Id>, rows: set<SourceEdge>): set<Edge>
    requires WellFormed(db) && rows <= db.sourceEdges
  {
    set e | e in rows :: DrawEdge(db, rep, e)
  }

  lemma EndsExist(db: Db, rows: set<SourceEdge>)
    requires WellFormed(db) && rows <= db.sourceEdges
    ensures SourceEnds(rows) <= db.sources.Keys
  {
  }

  function EndConcepts(rep: map<SourceId, Id>, e: SourceEdge): set<Id> {
    (if e.subject in rep then {rep[e.subject]} else {}) + (if e.obj in rep then {rep[e.obj]} else {})
  }

  function EndCategories(rep: map<SourceId, Id>, e: SourceEdge): set<SourceId> {
    (if e.subject in rep then {} else {e.subject}) + (if e.obj in rep then {} else {e.obj})
  }

  lemma EndsOfOneMore(rows: set<SourceEdge>, e: SourceEdge)
    ensures SourceEnds(rows + {e}) == SourceEnds(rows) + {e.subject, e.obj}
  {
  }

  lemma DrawnOneMore(db: Db, rep: map<SourceId, Id>, ends: set<SourceId>, e: SourceEdge)
    requires ends <= db.sources.Keys && e.subject in db.sources && e.obj in db.sources
    ensures var all := ends + {e.subject, e.obj};
            && DrawnNodes(db, rep, all)
               == DrawnNodes(db, rep, ends) + {Draw(db, rep, e.subject), Draw(db, rep, e.obj)}
            && DrawnConcepts(rep, all) == DrawnConcepts(rep, ends) + EndConcepts(rep, e)
            && all - rep.Keys == (ends - rep.Keys) + EndCategories(rep, e)
  {
  }

  /** What drawing these rows adds to what was there. */
  ghost predicate Drew(db: Db, rep: map<SourceId, Id>, rows: set<SourceEdge>, nodes: set<Node>, edges: set<Edge>,
                       next: set<Id>, nodes': set<Node>, edges': set<Edge>, next': set<Id>, categories: set<SourceId>)
    requires WellFormed(db) && rows <= db.sourceEdges
  {
    EndsExist(db, rows);
    && nodes' == nodes + DrawnNodes(db, rep, SourceEnds(rows))
    && edges' == edges + DrawnEdges(db, rep, rows)
    && next' == next + DrawnConcepts(rep, SourceEnds(rows))
    && categories == SourceEnds(rows) - rep.Keys
  }

  lemma DrewNothing(db: Db, rep: map<SourceId, Id>, none: set<SourceEdge>, nodes: set<Node>, edges: set<Edge>,
                    next: set<Id>)
    requires WellFormed(db) && none == {}
    ensures Drew(db, rep, none, nodes, edges, next, nodes, edges, next, {})
  {
  }

  /** One more row, as the loop takes it. */
  lemma DrewOneMore(db: Db, rep: map<SourceId, Id>, all: set<SourceEdge>, rows: set<SourceEdge>, e: SourceEdge,
                    nodes: set<Node>, edges: set<Edge>, next: set<Id>, nodes': set<Node>, edges': set<Edge>,
                    next': set<Id>, categories: set<SourceId>)
    requires WellFormed(db) && all <= db.sourceEdges && rows <= all && e in rows
    requires Drew(db, rep, all - rows, nodes, edges, next, nodes', edges', next', categories)
    ensures Drew(db, rep, all - (rows - {e}), nodes, edges, next,
                 nodes' + {Draw(db, rep, e.subject), Draw(db, rep, e.obj)}, edges' + {DrawEdge(db, rep, e)},
                 next' + EndConcepts(rep, e), categories + EndCategories(rep, e))
  {
    var before := all - rows;
    OneLess(all, rows, e);
    EndsOfOneMore(before, e);
    EndsExist(db, before);
    EndsExist(db, before + {e});
    DrawnOneMore(db, rep, SourceEnds(before), e);
    DrawnEdgesOneMore(db, rep, before, e);
    UnionAssociates(nodes, DrawnNodes(db, rep, SourceEnds(before)), {Draw(db, rep, e.subject), Draw(db, rep, e.obj)});
    UnionAssociates(edges, DrawnEdges(db, rep, before), {DrawEdge(db, rep, e)});
    UnionAssociates(next, DrawnConcepts(rep, SourceEnds(before)), EndConcepts(rep, e));
  }

  lemma DrawnEdgesOneMore(db: Db, rep: map<SourceId, Id>, rows: set<SourceEdge>, e: SourceEdge)
    requires WellFormed(db) && rows <= db.sourceEdges && e in db.sourceEdges
    ensures DrawnEdges(db, rep, rows + {e}) == DrawnEdges(db, rep, rows) + {DrawEdge(db, rep, e)}
  {
  }

  lemma OneLess<T>(all: set<T>, rows: set<T>, e: T)
    requires rows <= all && e in rows
    ensures all - (rows - {e}) == (all - rows) + {e}
  {
  }

  lemma UnionAssociates<T>(a: set<T>, b: set<T>, c: set<T>)
    ensures a + b + c == a + (b + c)
  {
  }

  /** What drawing all rows of a round comes to. */
  lemma RepMeetsRound(db: Db, frontier: set<Id>, rep: map<SourceId, Id>)
    requires WellFormed(db) && IsRep(db, frontier, rep)
    ensures EndsAt(db, frontier) <= db.sources.Keys
    ensures DrawnConcepts(rep, EndsAt(db, frontier)) == SourceConcepts(db, frontier)
    ensures EndsAt(db, frontier) - rep.Keys == CategoriesAll(db, frontier)
    ensures DrawnEdges(db, rep, RowsAt(db, frontier)) == SourceLines(db, frontier)
    ensures DrawnNodes(db, rep, EndsAt(db, frontier))
            == Nodes(SourceConcepts(db, frontier)) + CategoryNodes(db, CategoriesAll(db, frontier))
  {
    EndsExist(db, RowsAt(db, frontier));
    ConceptsMeet(db, frontier, rep);
    CategoriesMeet(db, frontier, rep);
    EdgesMeet(db, frontier, rep);
    DrawnShapes(db, rep, EndsAt(db, frontier));
  }

  lemma ConceptsMeet(db: Db, frontier: set<Id>, rep: map<SourceId, Id>)
    requires IsRep(db, frontier, rep)
    ensures DrawnConcepts(rep, EndsAt(db, frontier)) == SourceConcepts(db, frontier)
  {
    forall c
      ensures c in DrawnConcepts(rep, EndsAt(db, frontier)) <==> c in SourceConcepts(db, frontier)
    {
      if c in SourceConcepts(db, frontier) {
        var s :| s in EndsAt(db, frontier) && ConceptsOf(db, s) != {} && Least(Candidates(db, frontier, s)) == c;
        assert s in rep;
      }
    }
  }

  lemma CategoriesMeet(db: Db, frontier: set<Id>, rep: map<SourceId, Id>)
    requires IsRep(db, frontier, rep)
    ensures EndsAt(db, frontier) - rep.Keys == CategoriesAll(db, frontier)
  {
    forall k
      ensures k in EndsAt(db, frontier) - rep.Keys <==> k in CategoriesAll(db, frontier)
    {
      RoundCategories(db, frontier, k);
    }
  }

  lemma EndMeets(db: Db, frontier: set<Id>, rep: map<SourceId, Id>, s: SourceId)
    requires IsRep(db, frontier, rep) && s in EndsAt(db, frontier) && s in db.sources
    ensures Draw(db, rep, s) == NodeOf(db, frontier, s)
  {
  }

  lemma EdgesMeet(db: Db, frontier: set<Id>, rep: map<SourceId, Id>)
    requires WellFormed(db) && IsRep(db, frontier, rep)
    ensures DrawnEdges(db, rep, RowsAt(db, frontier)) == SourceLines(db, frontier)
  {
    forall e | e in RowsAt(db, frontier)
      ensures e.subject in db.sources && e.obj in db.sources
      ensures DrawEdge(db, rep, e) == SourceLine(db, frontier, e)
    {
      EndMeets(db, frontier, rep, e.subject);
      EndMeets(db, frontier, rep, e.obj);
    }
  }

  lemma DrawnShapes(db: Db, rep: map<SourceId, Id>, ends: set<SourceId>)
    requires ends <= db.sources.Keys
    ensures DrawnNodes(db, rep, ends) == Nodes(DrawnConcepts(rep, ends)) + CategoryNodes(db, ends - rep.Keys)
  {
    var shapes := Nodes(DrawnConcepts(rep, ends)) + CategoryNodes(db, ends - rep.Keys);
    forall n | n in shapes
      ensures n in DrawnNodes(db, rep, ends)
    {
      if n in Nodes(DrawnConcepts(rep, ends)) {
        var s :| s in ends && s in rep && n == Canonical(rep[s]);
        assert n == Draw(db, rep, s);
      } else {
        var k :| k in ends - rep.Keys && n == SyntheticNode(db, k);
        assert n == Draw(db, rep, k);
      }
    }
    forall n | n in DrawnNodes(db, rep, ends)
      ensures n in shapes
    {
      var s :| s in ends && n == Draw(db, rep, s);
      if s in rep {
        assert rep[s] in DrawnConcepts(rep, ends);
      } else {
        assert s in ends - rep.Keys;
      }
    }
  }

  /** Concepts loaded for the round are drawn in it, or were at the frontier. */
  lemma LoadedAreDrawn(db: Db, frontier: set<Id>, rep: map<SourceId, Id>, known: set<Id>)
    requires WellFormed(db) && IsRep(db, frontier, rep) && frontier <= known
    ensures rep.Values - known <= SourceConcepts(db, frontier)
    ensures known + (rep.Values - known) == known + SourceConcepts(db, frontier)
  {
    ConceptsMeet(db, frontier, rep);
    forall s | s in rep
      ensures rep[s] in known || rep[s] in DrawnConcepts(rep, EndsAt(db, frontier))
    {
    }
  }

  lemma SourceConceptsExist(db: Db, frontier: set<Id>)
    requires WellFormed(db)
    ensures SourceConcepts(db, frontier) <= db.concepts
  {
    forall s | s in EndsAt(db, frontier) && ConceptsOf(db, s) != {}
      ensures Least(Candidates(db, frontier, s)) in db.concepts
    {
      assert (s, Least(Candidates(db, frontier, s))) in db.mappings;
    }
  }

  // ---------------------------------------------------------------- members of categories

  /** The end of the edge that is not in these categories, when the other is k. */
  predicate JoinsOutside(e: SourceEdge, categories: set<SourceId>, k: SourceId, other: SourceId) {
    k in categories && other !in categories && Joins(e, k, other)
  }

  /** One of these rows joins the category to an end drawn as the concept. */
  ghost predicate IsMember(categories: set<SourceId>, rep: map<SourceId, Id>, rows: set<SourceEdge>, k: SourceId,
                           c: Id) {
    exists e, t :: e in rows && JoinsOutside(e, categories, k, t) && t in rep && rep[t] == c
  }

  ghost predicate HasRelation(categories: set<SourceId>, rep: map<SourceId, Id>, rows: set<SourceEdge>, k: SourceId,
                              c: Id, relation: string) {
    exists e, t :: e in rows && JoinsOutside(e, categories, k, t) && t in rep && rep[t] == c && e.relation == relation
  }

  /** The members met over these edges, each with the relation of one of its edges. */
  ghost predicate MembersSoFar(members: Memberships, rep: map<SourceId, Id>, categories: set<SourceId>,
                               rows: set<SourceEdge>) {
    && members.Keys == categories
    && (forall k, c :: k in categories ==> (c in members[k] <==> IsMember(categories, rep, rows, k, c)))
    && (forall k, c :: k in categories && c in members[k] ==> HasRelation(categories, rep, rows, k, c, members[k][c]))
  }

  lemma StillMember(categories: set<SourceId>, rep: map<SourceId, Id>, rows: set<SourceEdge>, e: SourceEdge,
                    k: SourceId, c: Id)
    ensures IsMember(categories, rep, rows, k, c) ==> IsMember(categories, rep, rows + {e}, k, c)
    ensures forall r :: HasRelation(categories, rep, rows, k, c, r) ==>
              HasRelation(categories, rep, rows + {e}, k, c, r)
  {
    if IsMember(categories, rep, rows, k, c) {
      var x, t :| x in rows && JoinsOutside(x, categories, k, t) && t in rep && rep[t] == c;
      assert x in rows + {e};
    }
    forall r | HasRelation(categories, rep, rows, k, c, r)
      ensures HasRelation(categories, rep, rows + {e}, k, c, r)
    {
      var x, t :| x in rows && JoinsOutside(x, categories, k, t) && t in rep && rep[t] == c && x.relation == r;
      assert x in rows + {e};
    }
  }

  lemma SkipRow(members: Memberships, rep: map<SourceId, Id>, categories: set<SourceId>, rows: set<SourceEdge>,
                e: SourceEdge)
    requires MembersSoFar(members, rep, categories, rows)
    requires forall k, t :: JoinsOutside(e, categories, k, t) ==> t !in rep
    ensures MembersSoFar(members, rep, categories, rows + {e})
  {
    forall k, c | k in categories
      ensures c in members[k] <==> IsMember(categories, rep, rows + {e}, k, c)
      ensures c in members[k] ==> HasRelation(categories, rep, rows + {e}, k, c, members[k][c])
    {
      StillMember(categories, rep, rows, e, k, c);
    }
  }

  lemma TakeRow(members: Memberships, rep: map<SourceId, Id>, categories: set<SourceId>, rows: set<SourceEdge>,
                e: SourceEdge, k: SourceId, other: SourceId)
    requires MembersSoFar(members, rep, categories, rows) && JoinsOutside(e, categories, k, other) && other in rep
    ensures MembersSoFar(members[k := members[k][rep[other] := e.relation]], rep, categories, rows + {e})
  {
    var members' := members[k := members[k][rep[other] := e.relation]];
    assert e in rows + {e} && JoinsOutside(e, categories, k, other);
    forall j, c | j in categories
      ensures c in members'[j] <==> IsMember(categories, rep, rows + {e}, j, c)
      ensures c in members'[j] ==> HasRelation(categories, rep, rows + {e}, j, c, members'[j][c])
    {
      StillMember(categories, rep, rows, e, j, c);
    }
  }

  /** The loop over the member edges. An edge between two of the categories joins no member. */
  method CollectMembers(categories: set<SourceId>, all: set<SourceEdge>, rep: map<SourceId, Id>)
    returns (members: Memberships)
    ensures MembersSoFar(members, rep, categories, all)
  {
    members := map k | k in categories :: map[];
    var rows := all;
    ghost var done: set<SourceEdge> := {};
    while rows != {}
      invariant done + rows == all && MembersSoFar(members, rep, categories, done)
      decreases rows
    {
      var e :| e in rows;
      rows := rows - {e};
      var subjectIs, objectIs := e.subject in categories, e.obj in categories;
      if objectIs != subjectIs {
        var k, other := if objectIs then e.obj else e.subject, if objectIs then e.subject else e.obj;
        if other in rep {
          TakeRow(members, rep, categories, done, e, k, other);
          members := members[k := members[k][rep[other] := e.relation]];
        } else {
          SkipRow(members, rep, categories, done, e);
        }
      } else {
        SkipRow(members, rep, categories, done, e);
      }
      done := done + {e};
    }
    assert done == all;
  }

  ghost predicate IsMemberRep(db: Db, categories: set<SourceId>, rep: map<SourceId, Id>) {
    IsLeastMap(rep, set m | m in db.mappings && m.0 in SourceEnds(SourceRows(db, categories)) - categories)
  }

  /** An edge at an unmapped category with a mapped other end joins the two. */
  lemma EdgeJoins(db: Db, categories: set<SourceId>, rep: map<SourceId, Id>, k: SourceId, t: SourceId)
    returns (e: SourceEdge)
    requires k in categories && forall j :: j in categories ==> ConceptsOf(db, j) == {}
    requires IsMemberRep(db, categories, rep) && t in Opposite(db, k) && ConceptsOf(db, t) != {}
    ensures e in SourceRows(db, categories) && JoinsOutside(e, categories, k, t)
    ensures t in rep && rep[t] == Least(ConceptsOf(db, t))
  {
    e :| e in db.sourceEdges && ((e.subject == k && e.obj == t) || (e.obj == k && e.subject == t));
    FarRows(db, SourceEnds(SourceRows(db, categories)) - categories, t);
    assert e in SourceRows(db, categories);
  }

  lemma JoinedIsMapped(db: Db, categories: set<SourceId>, rep: map<SourceId, Id>, e: SourceEdge, k: SourceId,
                       t: SourceId)
    requires IsMemberRep(db, categories, rep)
    requires e in SourceRows(db, categories) && JoinsOutside(e, categories, k, t) && t in rep
    ensures t in Opposite(db, k) && ConceptsOf(db, t) != {} && rep[t] == Least(ConceptsOf(db, t))
  {
    FarRows(db, SourceEnds(SourceRows(db, categories)) - categories, t);
  }

  /** Over all edges at unmapped categories, the members are the mapped other ends. */
  lemma MembersAreMappedEnds(db: Db, categories: set<SourceId>, rep: map<SourceId, Id>, members: Memberships)
    requires forall j :: j in categories ==> ConceptsOf(db, j) == {}
    requires IsMemberRep(db, categories, rep)
    requires MembersSoFar(members, rep, categories, SourceRows(db, categories))
    ensures AreMemberships(db, categories, members)
  {
    forall k, c: Id | k in categories && c in MappedEnds(db, k)
      ensures c in members[k]
    {
      var t :| t in Opposite(db, k) && ConceptsOf(db, t) != {} && Least(ConceptsOf(db, t)) == c;
      var e := EdgeJoins(db, categories, rep, k, t);
      assert IsMember(categories, rep, SourceRows(db, categories), k, c);
    }
    forall k, c: Id | k in categories && c in members[k]
      ensures c in MappedEnds(db, k) && IsRelation(db, k, c, members[k][c])
    {
      var e, t :| e in SourceRows(db, categories) && JoinsOutside(e, categories, k, t) && t in rep && rep[t] == c
                  && e.relation == members[k][c];
      JoinedIsMapped(db, categories, rep, e, k, t);
    }
  }

  lemma RepValues(db: Db, categories: set<SourceId>, rep: map<SourceId, Id>)
    requires WellFormed(db) && IsMemberRep(db, categories, rep)
    ensures rep.Values <= db.concepts
  {
    forall s | s in rep
      ensures rep[s] in db.concepts
    {
      FarRows(db, SourceEnds(SourceRows(db, categories)) - categories, s);
      assert (s, rep[s]) in db.mappings;
    }
  }

  /** What attaching these categories adds to what was there. */
  ghost predicate Attached(q: Query, done: set<SourceId>, members: Memberships, nodes: set<Node>, edges: set<Edge>,
                           next: set<Id>, nodes': set<Node>, edges': set<Edge>, next': set<Id>, truncated: bool) {
    && nodes' == nodes + (CategoryNodes(q.db, done) + Nodes(AllKept(q, done)))
    && edges' == edges + MemberLines(q, done, members)
    && next' == next + (AllKept(q, done) - {q.selected})
    && (truncated <==> OverCap(q, done))
  }

  lemma AttachedNothing(q: Query, none: set<SourceId>, members: Memberships, nodes: set<Node>, edges: set<Edge>,
                        next: set<Id>)
    requires none == {}
    ensures Attached(q, none, members, nodes, edges, next, nodes, edges, next, false)
  {
    NothingAttached(q, none, members);
  }

  /** One more category attached. */
  lemma AttachedOneMore(q: Query, categories: set<SourceId>, rest: set<SourceId>, k: SourceId, members: Memberships,
                        nodes: set<Node>, edges: set<Edge>, next: set<Id>, nodes': set<Node>, edges': set<Edge>,
                        next': set<Id>, truncated: bool, over: bool)
    requires rest <= categories && k in rest && categories <= q.db.sources.Keys && members.Keys == categories
    requires Attached(q, categories - rest, members, nodes, edges, next, nodes', edges', next', truncated)
    requires over <==> |MappedEnds(q.db, k)| > q.cap
    ensures Attached(q, categories - (rest - {k}), members, nodes, edges, next,
                     nodes' + {SyntheticNode(q.db, k)} + Nodes(KeptMembers(q, k)),
                     edges' + MemberLinesOf(q, k, members[k]), next' + (KeptMembers(q, k) - {q.selected}),
                     truncated || over)
  {
    var done := categories - rest;
    OneLess(categories, rest, k);
    KeptOneMore(q, done, k);
    LinesOneMore(q, done, k, members);
    OverOneMore(q, done, k);
    CategoryOneMore(q.db, done, k);
    NodesOfBoth(AllKept(q, done), KeptMembers(q, k));
    NodesRegroup(nodes, CategoryNodes(q.db, done), Nodes(AllKept(q, done)), {SyntheticNode(q.db, k)},
                 Nodes(KeptMembers(q, k)));
    NextRegroup(next, AllKept(q, done), KeptMembers(q, k), q.selected);
    UnionAssociates(edges, MemberLines(q, done, members), MemberLinesOf(q, k, members[k]));
  }

  lemma CategoryOneMore(db: Db, done: set<SourceId>, k: SourceId)
    requires k in db.sources
    ensures CategoryNodes(db, done + {k}) == CategoryNodes(db, done) + {SyntheticNode(db, k)}
  {
  }

  lemma KeptOneMore(q: Query, done: set<SourceId>, k: SourceId)
    ensures AllKept(q, done + {k}) == AllKept(q, done) + KeptMembers(q, k)
  {
  }

  lemma LinesOneMore(q: Query, done: set<SourceId>, k: SourceId, members: Memberships)
    requires k in q.db.sources && k in members
    ensures MemberLines(q, done + {k}, members) == MemberLines(q, done, members) + MemberLinesOf(q, k, members[k])
  {
  }

  lemma OverOneMore(q: Query, done: set<SourceId>, k: SourceId)
    ensures OverCap(q, done + {k}) <==> OverCap(q, done) || |MappedEnds(q.db, k)| > q.cap
  {
    assert k in done + {k};
    if OverCap(q, done) {
      var j :| j in done && |MappedEnds(q.db, j)| > q.cap;
      assert j in done + {k};
    }
  }

  // ---------------------------------------------------------------- the search

  /** The drawing state: nodes, edges and the concepts loaded so far. */
  class Drawing {
    var nodes: set<Node>
    var edges: set<Edge>
    var known: set<Id>

    constructor (selected: Id)
      ensures nodes == {Canonical(selected)} && edges == {} && known == {selected}
    {
      nodes, edges, known := {Canonical(selected)}, {}, {selected};
    }

    /** Ends of canonical edges at the frontier; those outside it are discovered. */
    method ExpandCanonicalEdges(db: Db, frontier: set<Id>) returns (discovered: set<Id>)
      requires WellFormed(db) && frontier <= known
      modifies this
      ensures discovered == Discovered(db, frontier)
      ensures nodes == old(nodes) + Nodes(discovered)
      ensures edges == old(edges) + CanonicalLines(db, frontier)
      ensures known == old(known) + discovered
    {
      discovered := {};
      var needed: set<Id> := {};
      var all := CanonicalRows(db, frontier);
      var rows := all;
      while rows != {}
        invariant rows <= all
        invariant needed == EndsOf(all - rows)
        invariant edges == old(edges) + set e | e in all - rows :: CanonicalLine(e)
        invariant nodes == old(nodes) && known == old(known)
        decreases rows
      {
        var e :| e in rows;
        RowDone(all, rows, e);
        needed, edges, rows := needed + {e.subject, e.obj}, edges + {CanonicalLine(e)}, rows - {e};
      }
      assert all - rows == all;
      var missing := needed - known;
      known := known + missing;
      discovered := missing;
      nodes := nodes + Nodes(missing);
      var seen := needed - frontier;
      discovered := discovered + seen;
      nodes := nodes + Nodes(seen);
      MissingAreSeen(needed, old(known), frontier);
      NodesOfBoth(missing, seen);
    }

    /** The loop over the source edges of a round. */
    method DrawRows(db: Db, rep: map<SourceId, Id>, all: set<SourceEdge>, next: set<Id>)
      returns (next': set<Id>, categories: set<SourceId>)
      requires WellFormed(db) && all <= db.sourceEdges
      modifies this`nodes, this`edges
      ensures Drew(db, rep, all, old(nodes), old(edges), next, nodes, edges, next', categories)
    {
      next', categories := next, {};
      var rows := all;
      DrewNothing(db, rep, all - rows, nodes, edges, next);
      while rows != {}
        invariant rows <= all
        invariant Drew(db, rep, all - rows, old(nodes), old(edges), next, nodes, edges, next', categories)
        decreases rows
      {
        var e :| e in rows;
        DrewOneMore(db, rep, all, rows, e, old(nodes), old(edges), next, nodes, edges, next', categories);
        nodes := nodes + {Draw(db, rep, e.subject), Draw(db, rep, e.obj)};
        edges := edges + {DrawEdge(db, rep, e)};
        next', categories := next' + EndConcepts(rep, e), categories + EndCategories(rep, e);
        rows := rows - {e};
      }
      assert all - rows == all;
    }

    /** Both ends of the source edges at the frontier, drawn as concepts or, when unmapped, as categories. */
    method ExpandSourceEdges(db: Db, frontier: set<Id>, next: set<Id>)
      returns (next': set<Id>, categories: set<SourceId>)
      requires WellFormed(db) && frontier <= known
      modifies this
      ensures next' == next + SourceConcepts(db, frontier) && categories == CategoriesAll(db, frontier)
      ensures nodes == old(nodes) + (Nodes(SourceConcepts(db, frontier)) + CategoryNodes(db, categories))
      ensures edges == old(edges) + SourceLines(db, frontier)
      ensures known == old(known) + SourceConcepts(db, frontier)
    {
      var sources := FrontierSources(db, frontier);
      var near := LeastConcepts(set m | m in db.mappings && m.1 in frontier);
      var rows := SourceRows(db, sources);
      var related := SourceEnds(rows) - sources;
      var far := LeastConcepts(set m | m in db.mappings && m.0 in related);
      RepIsRight(db, frontier, near, far);
      var rep := near + far;
      var loaded := rep.Values - known;
      LoadedAreDrawn(db, frontier, rep, known);
      known := known + loaded;
      nodes := nodes + Nodes(loaded);
      next', categories := DrawRows(db, rep, rows, next);
      RepMeetsRound(db, frontier, rep);
      LoadedNodes(old(nodes), loaded, SourceConcepts(db, frontier), CategoryNodes(db, categories));
    }

    /** One category: its node, its members up to the cap, and an edge to each of them. */
    method AttachOne(q: Query, k: SourceId, members: map<Id, string>, next: set<Id>)
      returns (next': set<Id>, over: bool)
      requires k in q.db.sources && members.Keys == MappedEnds(q.db, k) && IsOrder(q.byName) && q.cap >= 1
      modifies this`nodes, this`edges
      ensures over <==> |MappedEnds(q.db, k)| > q.cap
      ensures nodes == old(nodes) + {SyntheticNode(q.db, k)} + Nodes(KeptMembers(q, k))
      ensures next' == next + (KeptMembers(q, k) - {q.selected})
      ensures edges == old(edges) + MemberLinesOf(q, k, members)
    {
      nodes := nodes + {SyntheticNode(q.db, k)};
      var ranked := SortedSet(q.byName, members.Keys);
      InOrderSize(q.byName, members.Keys);
      over := |ranked| > q.cap;
      var list := CapMembers(ranked, q.selected, q.cap);
      var kept := set c | c in list;
      CapKeepsSelected(q, k);
      assert kept == KeptMembers(q, k);
      nodes := nodes + Nodes(kept);
      next' := next + (kept - {q.selected});
      edges := edges + set c | c in kept :: Edge(Canonical(c), SyntheticNode(q.db, k), members[c], SourceLayer);
    }

    /** The loop over the new categories. */
    method AttachAll(q: Query, categories: set<SourceId>, members: Memberships, next: set<Id>)
      returns (next': set<Id>, truncated: bool)
      requires categories <= q.db.sources.Keys && IsOrder(q.byName) && q.cap >= 1
      requires AreMemberships(q.db, categories, members)
      modifies this`nodes, this`edges
      ensures Attached(q, categories, members, old(nodes), old(edges), next, nodes, edges, next', truncated)
    {
      next', truncated := next, false;
      var rest := categories;
      AttachedNothing(q, categories - rest, members, nodes, edges, next);
      while rest != {}
        invariant rest <= categories
        invariant Attached(q, categories - rest, members, old(nodes), old(edges), next, nodes, edges, next', truncated)
        decreases rest
      {
        var k :| k in rest;
        var over: bool;
        ghost var nodesBefore, edgesBefore, nextBefore := nodes, edges, next';
        next', over := AttachOne(q, k, members[k], next');
        AttachedOneMore(q, categories, rest, k, members, old(nodes), old(edges), next,
                        nodesBefore, edgesBefore, nextBefore, truncated, over);
        truncated, rest := truncated || over, rest - {k};
      }
      assert categories - rest == categories;
    }

    /** The members of the new categories, each capped. */
    method AttachCategoryMembers(q: Query, categories: set<SourceId>, next: set<Id>)
      returns (next': set<Id>, truncated: bool, members: Memberships)
      requires WellFormed(q.db) && categories <= q.db.sources.Keys && IsOrder(q.byName) && q.cap >= 1
      requires forall k :: k in categories ==> ConceptsOf(q.db, k) == {}
      modifies this
      ensures MembersDone(q, categories, members, old(nodes), old(edges), old(known), next, nodes, edges, known, next',
                          truncated)
    {
      var rows := SourceRows(q.db, categories);
      var others := SourceEnds(rows) - categories;
      var rep := LeastConcepts(set m | m in q.db.mappings && m.0 in others);
      RepValues(q.db, categories, rep);
      known := known + rep.Values;
      members := CollectMembers(categories, rows, rep);
      MembersAreMappedEnds(q.db, categories, rep, members);
      KeptAreLoaded(q, categories, rep, rows, members);
      next', truncated := AttachAll(q, categories, members, next);
    }

    /** One round: canonical edges, source edges, and the members of the categories met for the first time. */
    method ExpandRound(q: Query, frontier: set<Id>, ghost seen: set<Id>, cats: set<SourceId>, ghost before: Memberships)
      returns (next: set<Id>, categories: set<SourceId>, over: bool, ghost members: Memberships)
      requires IsOrder(q.byName) && q.cap >= 1
      requires RoundReady(q, Stage(frontier, seen, cats), nodes, known, before)
      modifies this
      ensures RoundDone(q, Stage(frontier, seen, cats), before, old(edges), nodes, edges, known, next, categories, over,
                        members)
    {
      next := ExpandCanonicalEdges(q.db, frontier);
      next, categories := ExpandSourceEdges(q.db, frontier, next);
      ghost var nodes2, edges2, known2, next2 := nodes, edges, known, next;
      CategoriesExist(q.db, frontier);
      var newOnes := categories - cats;
      over := false;
      var added: Memberships := map[];
      if newOnes != {} {
        next, over, added := AttachCategoryMembers(q, newOnes, next);
      } else {
        NoneAttached(q, newOnes, nodes, edges, next, known);
      }
      members := before + added;
      RoundEnds(q, Stage(frontier, seen, cats), before, added, old(nodes), old(edges), old(known),
                nodes2, edges2, known2, next2, nodes, edges, known, next, over);
    }
  }

  /** What a round from this stage leaves. */
  ghost predicate RoundDone(q: Query, s: Stage, before: Memberships, edges: set<Edge>, nodes': set<Node>,
                            edges': set<Edge>, known: set<Id>, next: set<Id>, categories: set<SourceId>, over: bool,
                            members: Memberships) {
    && RoundDrew(q, s, edges, nodes', edges', next, categories, over, members)
    && RoundKeeps(q, s, before, known, next, categories, members)
  }

  ghost predicate RoundDrew(q: Query, s: Stage, edges: set<Edge>, nodes': set<Node>, edges': set<Edge>, next: set<Id>,
                            categories: set<SourceId>, over: bool, members: Memberships) {
    && next == NextOf(q, s) && categories == CategoriesAll(q.db, s.frontier)
    && (over <==> OverCap(q, NewCategories(q, s)))
    && nodes' == Nodes(s.seen + next) + CategoryNodes(q.db, s.cats + categories)
    && edges' == edges + RoundEdges(q, s, members)
  }

  ghost predicate RoundKeeps(q: Query, s: Stage, before: Memberships, known: set<Id>, next: set<Id>,
                             categories: set<SourceId>, members: Memberships) {
    && AreMemberships(q.db, s.cats + categories, members)
    && s.cats <= members.Keys && (forall k :: k in s.cats ==> k in before && members[k] == before[k])
    && s.seen + next <= known <= q.db.concepts && s.cats + categories <= q.db.sources.Keys
  }

  /** What a round starts from. */
  ghost predicate RoundReady(q: Query, s: Stage, nodes: set<Node>, known: set<Id>, members: Memberships) {
    && WellFormed(q.db) && s.frontier <= s.seen <= known <= q.db.concepts && q.selected in s.seen
    && s.cats <= q.db.sources.Keys && nodes == StageNodes(q, s) && AreMemberships(q.db, s.cats, members)
  }

  /** The state after the canonical and the source edges of a round. */
  ghost predicate SourcesDone(q: Query, s: Stage, nodes: set<Node>, edges: set<Edge>, known: set<Id>,
                              nodes': set<Node>, edges': set<Edge>, known': set<Id>, next: set<Id>) {
    && nodes' == nodes + Nodes(Discovered(q.db, s.frontier))
                 + (Nodes(SourceConcepts(q.db, s.frontier)) + CategoryNodes(q.db, CategoriesAll(q.db, s.frontier)))
    && edges' == edges + CanonicalLines(q.db, s.frontier) + SourceLines(q.db, s.frontier)
    && known' == known + Discovered(q.db, s.frontier) + SourceConcepts(q.db, s.frontier)
    && next == Discovered(q.db, s.frontier) + SourceConcepts(q.db, s.frontier)
  }

  lemma RoundEnds(q: Query, s: Stage, before: Memberships, added: Memberships,
                  nodes: set<Node>, edges: set<Edge>, known: set<Id>,
                  nodes2: set<Node>, edges2: set<Edge>, known2: set<Id>, next2: set<Id>,
                  nodes': set<Node>, edges': set<Edge>, known': set<Id>, next': set<Id>, over: bool)
    requires RoundReady(q, s, nodes, known, before)
    requires SourcesDone(q, s, nodes, edges, known, nodes2, edges2, known2, next2)
    requires MembersDone(q, NewCategories(q, s), added, nodes2, edges2, known2, next2, nodes', edges', known', next',
                         over)
    ensures RoundDone(q, s, before, edges, nodes', edges', known', next', CategoriesAll(q.db, s.frontier), over,
                      before + added)
  {
    MembershipsJoin(q, s.cats, before, NewCategories(q, s), added);
    NodesAfterRound(q, s, nodes, nodes');
    EdgesAfterRound(edges, CanonicalLines(q.db, s.frontier), SourceLines(q.db, s.frontier),
                    MemberLines(q, NewCategories(q, s), added));
    RoundKeepsRows(q, s, before, added, known, known2, known', next');
  }

  lemma RoundKeepsRows(q: Query, s: Stage, before: Memberships, added: Memberships, known: set<Id>, known2: set<Id>,
                       known': set<Id>, next: set<Id>)
    requires WellFormed(q.db) && s.seen <= known <= q.db.concepts && s.cats <= q.db.sources.Keys
    requires AreMemberships(q.db, s.cats, before) && AreMemberships(q.db, NewCategories(q, s), added)
    requires known2 == known + Discovered(q.db, s.frontier) + SourceConcepts(q.db, s.frontier)
    requires known2 + AllKept(q, NewCategories(q, s)) <= known' <= known2 + q.db.concepts && next == NextOf(q, s)
    ensures RoundKeeps(q, s, before, known', next, CategoriesAll(q.db, s.frontier), before + added)
  {
    CategoriesExist(q.db, s.frontier);
    KnownEnds(q, s, known, known');
    MembershipsJoin(q, s.cats, before, NewCategories(q, s), added);
    OldAndNew(s.cats, CategoriesAll(q.db, s.frontier));
  }

  lemma OldAndNew<T>(a: set<T>, b: set<T>)
    ensures a + (b - a) == a + b
  {
  }

  lemma KnownEnds(q: Query, s: Stage, known: set<Id>, known': set<Id>)
    requires WellFormed(q.db) && s.seen <= known <= q.db.concepts
    requires var known2 := known + Discovered(q.db, s.frontier) + SourceConcepts(q.db, s.frontier);
             known2 + AllKept(q, NewCategories(q, s)) <= known' <= known2 + q.db.concepts
    ensures s.seen + NextOf(q, s) <= known' <= q.db.concepts
  {
    DiscoveredExist(q.db, s.frontier);
    SourceConceptsExist(q.db, s.frontier);
    KnownSets(s.seen, known, Discovered(q.db, s.frontier), SourceConcepts(q.db, s.frontier),
              AllKept(q, NewCategories(q, s)), q.selected, q.db.concepts, known');
  }

  lemma KnownSets(seen: set<Id>, known: set<Id>, found: set<Id>, more: set<Id>, kept: set<Id>, selected: Id,
                  concepts: set<Id>, known': set<Id>)
    requires seen <= known <= concepts && found <= concepts && more <= concepts
    requires known + found + more + kept <= known' <= known + found + more + concepts
    ensures seen + (found + more + (kept - {selected})) <= known' <= concepts
  {
  }

  /** The state after attaching new categories. */
  ghost predicate MembersDone(q: Query, newOnes: set<SourceId>, members: Memberships, nodes: set<Node>,
                              edges: set<Edge>, known: set<Id>, next: set<Id>, nodes': set<Node>, edges': set<Edge>,
                              known': set<Id>, next': set<Id>, over: bool) {
    && AreMemberships(q.db, newOnes, members)
    && Attached(q, newOnes, members, nodes, edges, next, nodes', edges', next', over)
    && known + AllKept(q, newOnes) <= known' <= known + q.db.concepts
  }

  lemma NoneAttached(q: Query, none: set<SourceId>, nodes: set<Node>, edges: set<Edge>, next: set<Id>, known: set<Id>)
    requires none == {}
    ensures MembersDone(q, none, map[], nodes, edges, known, next, nodes, edges, known, next, false)
  {
    NothingAttached(q, none, map[]);
    AttachedNothing(q, none, map[], nodes, edges, next);
  }

  lemma MissingAreSeen(needed: set<Id>, known: set<Id>, frontier: set<Id>)
    requires frontier <= known
    ensures (needed - known) + (needed - frontier) == needed - frontier
    ensures known + (needed - known) == known + (needed - frontier)
  {
  }

  lemma RowDone(all: set<CanonicalEdge>, rows: set<CanonicalEdge>, e: CanonicalEdge)
    requires rows <= all && e in rows
    ensures EndsOf(all - (rows - {e})) == EndsOf(all - rows) + {e.subject, e.obj}
    ensures (set x | x in all - (rows - {e}) :: CanonicalLine(x))
            == (set x | x in all - rows :: CanonicalLine(x)) + {CanonicalLine(e)}
  {
    assert all - (rows - {e}) == (all - rows) + {e};
  }

  lemma NodesOfBoth(a: set<Id>, b: set<Id>)
    ensures Nodes(a) + Nodes(b) == Nodes(a + b)
  {
  }

  lemma LoadedNodes(before: set<Node>, loaded: set<Id>, more: set<Id>, categories: set<Node>)
    requires loaded <= more
    ensures before + Nodes(loaded) + (Nodes(more) + categories) == before + (Nodes(more) + categories)
  {
  }

  lemma NextRegroup(next: set<Id>, kept: set<Id>, mine: set<Id>, selected: Id)
    ensures next + (kept - {selected}) + (mine - {selected}) == next + ((kept + mine) - {selected})
  {
  }

  lemma NodesRegroup(a: set<Node>, b: set<Node>, c: set<Node>, x: set<Node>, y: set<Node>)
    ensures a + (b + c) + x + y == a + ((b + x) + (c + y))
  {
  }

  lemma NothingAttached(q: Query, none: set<SourceId>, members: Memberships)
    requires none == {}
    ensures CategoryNodes(q.db, none) == {} && AllKept(q, none) == {} && Nodes(AllKept(q, none)) == {}
    ensures MemberLines(q, none, members) == {} && !OverCap(q, none)
    ensures members == map[] ==> AreMemberships(q.db, none, members)
  {
  }

  lemma KeptAreLoaded(q: Query, categories: set<SourceId>, rep: map<SourceId, Id>, rows: set<SourceEdge>,
                      members: Memberships)
    requires q.cap >= 1 && MembersSoFar(members, rep, categories, rows) && AreMemberships(q.db, categories, members)
    ensures AllKept(q, categories) <= rep.Values
  {
    forall k, c | k in categories && c in KeptMembers(q, k)
      ensures c in rep.Values
    {
      CapKeepsSelected(q, k);
      assert IsMember(categories, rep, rows, k, c);
    }
  }

  lemma CategoriesExist(db: Db, frontier: set<Id>)
    requires WellFormed(db)
    ensures CategoriesAll(db, frontier) <= db.sources.Keys
    ensures forall k :: k in CategoriesAll(db, frontier) ==> ConceptsOf(db, k) == {}
  {
    forall k | k in CategoriesAll(db, frontier)
      ensures k in db.sources && ConceptsOf(db, k) == {}
    {
      RoundCategories(db, frontier, k);
      EndsExist(db, RowsAt(db, frontier));
    }
  }

  lemma DiscoveredExist(db: Db, frontier: set<Id>)
    requires WellFormed(db)
    ensures Discovered(db, frontier) <= db.concepts
  {
  }

  lemma MembershipsJoin(q: Query, cats: set<SourceId>, before: Memberships, newOnes: set<SourceId>, added: Memberships)
    requires AreMemberships(q.db, cats, before) && AreMemberships(q.db, newOnes, added) && cats !! newOnes
    ensures AreMemberships(q.db, cats + newOnes, before + added)
    ensures forall k :: k in cats ==> (before + added)[k] == before[k]
    ensures MemberLines(q, newOnes, before + added) == MemberLines(q, newOnes, added)
  {
  }

  lemma EdgesAfterRound(a: set<Edge>, b: set<Edge>, c: set<Edge>, d: set<Edge>)
    ensures a + b + c + d == a + (b + c + d)
  {
  }

  lemma NodesAfterRound(q: Query, s: Stage, before: set<Node>, after: set<Node>)
    requires before == StageNodes(q, s) && q.selected in s.seen
    requires after == before + Nodes(Discovered(q.db, s.frontier))
                      + (Nodes(SourceConcepts(q.db, s.frontier)) + CategoryNodes(q.db, CategoriesAll(q.db, s.frontier)))
                      + (CategoryNodes(q.db, NewCategories(q, s)) + Nodes(AllKept(q, NewCategories(q, s))))
    ensures after == Nodes(s.seen + NextOf(q, s)) + CategoryNodes(q.db, s.cats + CategoriesAll(q.db, s.frontier))
  {
    NodesJoin(q.db, s.seen, Discovered(q.db, s.frontier), SourceConcepts(q.db, s.frontier),
              AllKept(q, NewCategories(q, s)), q.selected, s.cats, CategoriesAll(q.db, s.frontier));
  }

  lemma NodesJoin(db: Db, seen: set<Id>, found: set<Id>, more: set<Id>, kept: set<Id>, selected: Id,
                  cats: set<SourceId>, categories: set<SourceId>)
    requires selected in seen
    ensures Nodes(seen) + CategoryNodes(db, cats) + Nodes(found) + (Nodes(more) + CategoryNodes(db, categories))
            + (CategoryNodes(db, categories - cats) + Nodes(kept))
            == Nodes(seen + (found + more + (kept - {selected}))) + CategoryNodes(db, cats + categories)
  {
    assert seen + (found + more + (kept - {selected})) == seen + found + more + kept;
  }

  // ---------------------------------------------------------------- the whole search

  datatype SearchState = SearchState(stage: Stage, nodes: set<Node>, edges: set<Edge>, known: set<Id>,
                                     truncated: bool, members: Memberships)

  /** Where the hop loop stands. */
  ghost function SearchAt(q: Query, hop: nat): SearchState -> bool {
    (st: SearchState) =>
      && st.stage == StageAt(q, hop) && st.nodes == StageNodes(q, st.stage)
      && st.edges == EdgesBy(q, hop, st.members)
      && (st.truncated <==> CappedBy(q, hop)) && AreMemberships(q.db, st.stage.cats, st.members)
      && st.stage.seen <= st.known <= q.db.concepts && st.stage.cats <= q.db.sources.Keys
  }

  /** What the search ends with. */
  ghost predicate Searched(q: Query, hops: nat, nodes: set<Node>, edges: set<Edge>, truncated: bool,
                           members: Memberships) {
    && nodes == StageNodes(q, StageAt(q, hops)) && edges == EdgesBy(q, hops, members)
    && (truncated <==> CappedBy(q, hops)) && AreMemberships(q.db, StageAt(q, hops).cats, members)
  }

  /** The hop loop. */
  method Search(q: Query, hops: nat)
    returns (nodes: set<Node>, edges: set<Edge>, truncated: bool, ghost members: Memberships)
    requires WellFormed(q.db) && q.selected in q.db.concepts && IsOrder(q.byName) && q.cap >= 1
    ensures Searched(q, hops, nodes, edges, truncated, members)
  {
    var drawing := new Drawing(q.selected);
    var frontier, seenCanonical := {q.selected}, {q.selected};
    var seenCategories: set<SourceId> := {};
    truncated, members := false, map[];
    SearchStarts(q);
    var hop := 0;
    while hop < hops && frontier != {}
      invariant hop <= hops
      invariant SearchAt(q, hop)(SearchState(Stage(frontier, seenCanonical, seenCategories), drawing.nodes,
                                             drawing.edges, drawing.known, truncated, members))
      decreases hops - hop
    {
      ghost var before := SearchState(Stage(frontier, seenCanonical, seenCategories), drawing.nodes, drawing.edges,
                                      drawing.known, truncated, members);
      SearchReady(q, hop, before);
      var next, categories, over;
      next, categories, over, members := drawing.ExpandRound(q, frontier, seenCanonical, seenCategories, members);
      SearchSteps(q, hop, before, drawing.nodes, drawing.edges, drawing.known, next, categories, over, members);
      truncated := truncated || over;
      seenCategories := seenCategories + categories;
      frontier := next - seenCanonical;
      seenCanonical := seenCanonical + frontier;
      hop := hop + 1;
    }
    SearchStops(q, hop, hops, SearchState(Stage(frontier, seenCanonical, seenCategories), drawing.nodes,
                                          drawing.edges, drawing.known, truncated, members));
    nodes, edges := drawing.nodes, drawing.edges;
  }

  lemma SearchReady(q: Query, hop: nat, st: SearchState)
    requires WellFormed(q.db) && SearchAt(q, hop)(st)
    ensures RoundReady(q, st.stage, st.nodes, st.known, st.members)
  {
    FrontierIsSeen(q, hop);
  }

  lemma SearchStops(q: Query, hop: nat, hops: nat, st: SearchState)
    requires SearchAt(q, hop)(st)
    requires hop <= hops && (hop < hops ==> st.stage.frontier == {})
    ensures Searched(q, hops, st.nodes, st.edges, st.truncated, st.members)
  {
    SearchStays(q, hop, hops, st.members);
  }

  lemma SearchStarts(q: Query)
    requires q.selected in q.db.concepts
    ensures SearchAt(q, 0)(SearchState(Stage({q.selected}, {q.selected}, {}), {Canonical(q.selected)}, {},
                                       {q.selected}, false, map[]))
  {
    assert Nodes({q.selected}) == {Canonical(q.selected)} && CategoryNodes(q.db, {}) == {};
  }

  /** A round's edges do not depend on the relations of categories met later. */
  lemma SameRoundEdges(q: Query, s: Stage, before: Memberships, after: Memberships)
    requires forall k :: k in NewCategories(q, s) ==> k in before && k in after && after[k] == before[k]
    ensures RoundEdges(q, s, after) == RoundEdges(q, s, before)
  {
    var newOnes := NewCategories(q, s);
    assert MemberLines(q, newOnes, after) == MemberLines(q, newOnes, before);
  }

  lemma NewWereMet(q: Query, i: nat, hop: nat)
    requires i < hop
    ensures NewCategories(q, StageAt(q, i)) <= StageAt(q, hop).cats
  {
    StageNext(q, i);
    StagesGrow(q, i + 1, hop);
    MetInStage(q, StageAt(q, i), StageAt(q, i + 1), StageAt(q, hop));
  }

  lemma MetInStage(q: Query, s: Stage, s': Stage, last: Stage)
    requires s' == NextStage(q, s) && s'.cats <= last.cats
    ensures NewCategories(q, s) <= last.cats
  {
  }

  lemma SameEdgesBy(q: Query, hop: nat, before: Memberships, after: Memberships)
    requires forall k :: k in StageAt(q, hop).cats ==> k in before && k in after && after[k] == before[k]
    ensures EdgesBy(q, hop, after) == EdgesBy(q, hop, before)
  {
    forall i: nat | i < hop
      ensures EdgesOfRound(q, after)(i) == EdgesOfRound(q, before)(i)
    {
      NewWereMet(q, i, hop);
      SameRoundEdges(q, StageAt(q, i), before, after);
    }
    SameBefore(EdgesOfRound(q, before), EdgesOfRound(q, after), hop);
  }

  lemma SameBefore<T(!new)>(a: nat -> set<T>, b: nat -> set<T>, n: nat)
    requires forall i: nat :: i < n ==> a(i) == b(i)
    ensures Before(a, n) == Before(b, n)
  {
  }

  lemma BeforeNext<T(!new)>(part: nat -> set<T>, n: nat)
    ensures Before(part, n + 1) == Before(part, n) + part(n)
  {
  }

  lemma EverNext(flag: nat -> bool, n: nat)
    ensures EverBefore(flag, n + 1) <==> EverBefore(flag, n) || flag(n)
  {
  }

  /** What one more round adds. */
  lemma OneMoreRound(q: Query, hop: nat, s: Stage, members: Memberships)
    requires s == StageAt(q, hop)
    ensures StageAt(q, hop + 1) == NextStage(q, s)
    ensures EdgesBy(q, hop + 1, members) == EdgesBy(q, hop, members) + RoundEdges(q, s, members)
    ensures CappedBy(q, hop + 1) <==> CappedBy(q, hop) || OverCap(q, NewCategories(q, s))
  {
    BeforeNext(EdgesOfRound(q, members), hop);
    EverNext(OverCapInRound(q), hop);
  }

  lemma NothingMore<T>(a: set<T>, none: set<T>)
    requires none == {}
    ensures a + none == a
  {
  }

  /** One round takes the loop from one stage to the next. */
  lemma SearchSteps(q: Query, hop: nat, st: SearchState, nodes: set<Node>, edges: set<Edge>, known: set<Id>,
                    next: set<Id>, categories: set<SourceId>, over: bool, members: Memberships)
    requires SearchAt(q, hop)(st)
    requires RoundDone(q, st.stage, st.members, st.edges, nodes, edges, known, next, categories, over, members)
    ensures var s := st.stage;
            var s' := Stage(next - s.seen, s.seen + (next - s.seen), s.cats + categories);
            SearchAt(q, hop + 1)(SearchState(s', nodes, edges, known, st.truncated || over, members))
  {
    SameEdgesBy(q, hop, st.members, members);
    OneMoreRound(q, hop, st.stage, members);
    OldAndNew(st.stage.seen, next);
  }

  lemma NoRows(db: Db, none: set<Id>)
    requires none == {}
    ensures Discovered(db, none) == {} && SourceConcepts(db, none) == {} && CategoriesAll(db, none) == {}
    ensures CanonicalLines(db, none) == {} && SourceLines(db, none) == {}
  {
    assert CanonicalRows(db, none) == {} && FrontierSources(db, none) == {} && RowsAt(db, none) == {};
  }

  lemma DryRound(q: Query, s: Stage, members: Memberships)
    requires s.frontier == {}
    ensures NextStage(q, s) == s && RoundEdges(q, s, members) == {} && !OverCap(q, NewCategories(q, s))
  {
    NoRows(q.db, s.frontier);
    NothingAttached(q, NewCategories(q, s), members);
    assert NextOf(q, s) == {};
  }

  /** When the frontier runs dry, further rounds would change nothing. */
  lemma {:induction false} SearchStays(q: Query, hop: nat, hops: nat, members: Memberships)
    requires hop <= hops && (hop < hops ==> StageAt(q, hop).frontier == {})
    ensures StageAt(q, hops) == StageAt(q, hop) && EdgesBy(q, hops, members) == EdgesBy(q, hop, members)
    ensures CappedBy(q, hops) <==> CappedBy(q, hop)
    decreases hops - hop
  {
    if hop < hops {
      DryStep(q, hop, StageAt(q, hop), members);
      SearchStays(q, hop + 1, hops, members);
    }
  }

  lemma DryStep(q: Query, hop: nat, s: Stage, members: Memberships)
    requires s == StageAt(q, hop) && s.frontier == {}
    ensures StageAt(q, hop + 1) == s && EdgesBy(q, hop + 1, members) == EdgesBy(q, hop, members)
    ensures CappedBy(q, hop + 1) <==> CappedBy(q, hop)
  {
    OneMoreRound(q, hop, s, members);
    DryRound(q, s, members);
    NothingMore(EdgesBy(q, hop, members), RoundEdges(q, s, members));
  }

  /** _apply_node_limit */
  method ApplyNodeLimit(orders: Orders, nodes: set<Node>, selected: Node, limit: nat) returns (kept: set<Node>)
    requires IsOrder(orders.byNode) && selected in nodes && limit >= 1
    ensures kept == KeptNodes(orders, nodes, selected, limit)
  {
    if |nodes| <= limit {
      return nodes;
    }
    var others := SortedSet(orders.byNode, nodes - {selected});
    kept := set n | n in SelectedFirst([selected], others, limit);
  }

  /**
   The answer, whatever the tables: none exactly for an unknown concept, else the nodes and edges of so
   many rounds, limited, and truncated exactly when a cap or the limit left something out.
   */
  method ConceptNeighborhood(db: Db, selected: Id, depth: int, limit: int, memberCap: int,
                             byName: (Id, Id) -> bool, orders: Orders)
    returns (result: Option<Graph>, ghost members: Memberships)
    requires WellFormed(db) && IsOrder(byName) && IsOrder(orders.byNode) && IsOrder(orders.byEdge)
    ensures result.None? <==> selected !in db.concepts
    ensures result.Some? ==>
              IsAnswer(Query(db, selected, if memberCap > 1 then memberCap else 1, byName),
                       Clamp(depth, 1, GRAPH_MAX_DEPTH), Clamp(limit, 1, GRAPH_MAX_LIMIT), orders, members,
                       result.value)
  {
    members := map[];
    if selected !in db.concepts {
      return None, members;
    }
    var hops, nodeLimit := Clamp(depth, 1, GRAPH_MAX_DEPTH), Clamp(limit, 1, GRAPH_MAX_LIMIT);
    var q := Query(db, selected, if memberCap > 1 then memberCap else 1, byName);
    var nodes, edges, capped;
    nodes, edges, capped, members := Search(q, hops);
    SelectedIsNode(q, hops);
    var kept := ApplyNodeLimit(orders, nodes, Canonical(selected), nodeLimit);
    LimitKeepsSelected(orders, nodes, Canonical(selected), nodeLimit);
    var truncated := capped || |kept| < |nodes|;
    var edgeList := SortedSet(orders.byEdge, set e | e in edges && e.source in kept && e.target in kept);
    var nodeList := SortedSet(orders.byNode, kept);
    result := Some(Graph(nodeList, edgeList, truncated));
  }

  lemma SelectedIsNode(q: Query, rounds: nat)
    ensures Canonical(q.selected) in StageNodes(q, StageAt(q, rounds))
  {
    FrontierIsSeen(q, rounds);
  }
}
