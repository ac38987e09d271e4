/**
 What concept_neighborhood computes, as functions of the tables: the concepts, categories and edges of
 each round, and the result made of them (app/skills/graph.py).
 */
module Exploration {
  import opened ConceptGraph
  import opened Ordering
  import opened Seqs

  /** One search. `byName` is the member order: name, then id. */
  datatype Query = Query(db: Db, selected: Id, cap: nat, byName: (Id, Id) -> bool)

  // ---------------------------------------------------------------- the rows of a round

  function CanonicalRows(db: Db, frontier: set<Id>): set<CanonicalEdge> {
    set e | e in db.edges && (e.subject in frontier || e.obj in frontier)
  }

  function EndsOf(rows: set<CanonicalEdge>): set<Id> {
    (set e | e in rows :: e.subject) + (set e | e in rows :: e.obj)
  }

  /** The source concepts mapped to the frontier. */
  function FrontierSources(db: Db, frontier: set<Id>): set<SourceId> {
    set m | m in db.mappings && m.1 in frontier :: m.0
  }

  function SourceRows(db: Db, sources: set<SourceId>): set<SourceEdge> {
    set e | e in db.sourceEdges && (e.subject in sources || e.obj in sources)
  }

  function SourceEnds(rows: set<SourceEdge>): set<SourceId> {
    (set e | e in rows :: e.subject) + (set e | e in rows :: e.obj)
  }

  /** The source edges at a frontier, and both their ends. */
  function RowsAt(db: Db, frontier: set<Id>): set<SourceEdge> {
    SourceRows(db, FrontierSources(db, frontier))
  }

  function EndsAt(db: Db, frontier: set<Id>): set<SourceId> {
    SourceEnds(RowsAt(db, frontier))
  }

  // ---------------------------------------------------------------- what a round finds

  /** Over canonical edges: the other ends. */
  function Discovered(db: Db, frontier: set<Id>): set<Id> {
    EndsOf(CanonicalRows(db, frontier)) - frontier
  }

  /** Over source edges: what the mapped ends are drawn as. */
  ghost function SourceConcepts(db: Db, frontier: set<Id>): set<Id> {
    set s | s in EndsAt(db, frontier) && ConceptsOf(db, s) != {} :: Least(Candidates(db, frontier, s))
  }

  /** Each mapped other end of a category's edges, as its least concept. */
  ghost function MappedEnds(db: Db, k: SourceId): set<Id> {
    set t | t in Opposite(db, k) && ConceptsOf(db, t) != {} :: Least(ConceptsOf(db, t))
  }

  /** The occurrences of x, or everything else. */
  function Keep<T(==)>(s: seq<T>, x: T, same: bool): seq<T> {
    if s == [] then [] else (if (s[0] == x) == same then [s[0]] else []) + Keep(s[1..], x, same)
  }

  /** The selected item first, then as many of the others as still fit. */
  function SelectedFirst<T(==)>(mine: seq<T>, others: seq<T>, cap: nat): seq<T> {
    var left := if cap < |mine| then 0 else cap - |mine|;
    mine + others[..if left < |others| then left else |others|]
  }

  /** _cap_members */
  function CapMembers(ranked: seq<Id>, selected: Id, cap: nat): seq<Id> {
    if |ranked| <= cap then ranked else SelectedFirst(Keep(ranked, selected, true), Keep(ranked, selected, false), cap)
  }

  /** The members of a category that are drawn: all, or the first ones by name with the selected concept. */
  ghost function KeptMembers(q: Query, k: SourceId): set<Id> {
    set c | c in CapMembers(InOrder(q.byName, MappedEnds(q.db, k)), q.selected, q.cap)
  }

  ghost function AllKept(q: Query, categories: set<SourceId>): set<Id> {
    set k, c | k in categories && c in KeptMembers(q, k) :: c
  }

  ghost predicate OverCap(q: Query, categories: set<SourceId>) {
    exists k :: k in categories && |MappedEnds(q.db, k)| > q.cap
  }

  // ---------------------------------------------------------------- what a round draws

  function CanonicalLine(e: CanonicalEdge): Edge {
    Edge(Canonical(e.subject), Canonical(e.obj), e.relation, CanonicalLayer)
  }

  function CanonicalLines(db: Db, frontier: set<Id>): set<Edge> {
    set e | e in CanonicalRows(db, frontier) :: CanonicalLine(e)
  }

  ghost function SourceLine(db: Db, frontier: set<Id>, e: SourceEdge): Edge
    requires e.subject in db.sources && e.obj in db.sources
  {
    Edge(NodeOf(db, frontier, e.subject), NodeOf(db, frontier, e.obj), e.relation, SourceLayer)
  }

  ghost function SourceLines(db: Db, frontier: set<Id>): set<Edge> {
    set e | e in RowsAt(db, frontier) && e.subject in db.sources && e.obj in db.sources :: SourceLine(db, frontier, e)
  }

  /** For each category, its members and the relation each is drawn with. */
  type Memberships = map<SourceId, map<Id, string>>

  /** The edge joins the category to the other end. */
  predicate Joins(e: SourceEdge, k: SourceId, other: SourceId) {
    (e.subject == k && e.obj == other) || (e.obj == k && e.subject == other)
  }

  /** This relation is that of a row between the category and an end drawn as the concept. */
  ghost predicate IsRelation(db: Db, k: SourceId, c: Id, relation: string) {
    exists e, t :: e in db.sourceEdges && Joins(e, k, t) && e.relation == relation
                   && ConceptsOf(db, t) != {} && Least(ConceptsOf(db, t)) == c
  }

  /** Every member of these categories has a relation of its own rows. */
  ghost predicate AreMemberships(db: Db, categories: set<SourceId>, members: Memberships) {
    && members.Keys == categories
    && (forall k :: k in categories ==> members[k].Keys == MappedEnds(db, k))
    && (forall k, c :: k in categories && c in members[k] ==> IsRelation(db, k, c, members[k][c]))
  }

  ghost function MemberLinesOf(q: Query, k: SourceId, relations: map<Id, string>): set<Edge>
    requires k in q.db.sources
  {
    set c | c in KeptMembers(q, k) && c in relations ::
      Edge(Canonical(c), SyntheticNode(q.db, k), relations[c], SourceLayer)
  }

  ghost function MemberLines(q: Query, categories: set<SourceId>, members: Memberships): set<Edge> {
    set k, e | k in categories && k in q.db.sources && k in members && e in MemberLinesOf(q, k, members[k]) :: e
  }

  // ---------------------------------------------------------------- the rounds

  /** After some rounds: the concepts to expand next, the concepts seen and the categories met. */
  datatype Stage = Stage(frontier: set<Id>, seen: set<Id>, cats: set<SourceId>)

  ghost function NewCategories(q: Query, s: Stage): set<SourceId> {
    CategoriesAll(q.db, s.frontier) - s.cats
  }

  ghost function NextOf(q: Query, s: Stage): set<Id> {
    Discovered(q.db, s.frontier) + SourceConcepts(q.db, s.frontier) + (AllKept(q, NewCategories(q, s)) - {q.selected})
  }

  ghost function NextStage(q: Query, s: Stage): Stage {
    Stage(NextOf(q, s) - s.seen, s.seen + NextOf(q, s), s.cats + CategoriesAll(q.db, s.frontier))
  }

  ghost function After(step: Stage -> Stage, start: Stage, rounds: nat): Stage {
    if rounds == 0 then start else step(After(step, start, rounds - 1))
  }

  ghost function RoundOf(q: Query): Stage -> Stage {
    s => NextStage(q, s)
  }

  function Start(q: Query): Stage {
    Stage({q.selected}, {q.selected}, {})
  }

  ghost function StageAt(q: Query, rounds: nat): Stage {
    After(RoundOf(q), Start(q), rounds)
  }

  ghost function StageNodes(q: Query, s: Stage): set<Node> {
    Nodes(s.seen) + CategoryNodes(q.db, s.cats)
  }

  /** The edges drawn in the round that starts at this stage. */
  ghost function RoundEdges(q: Query, s: Stage, members: Memberships): set<Edge> {
    CanonicalLines(q.db, s.frontier) + SourceLines(q.db, s.frontier) + MemberLines(q, NewCategories(q, s), members)
  }

  ghost function EdgesOfRound(q: Query, members: Memberships): nat -> set<Edge> {
    (i: nat) => RoundEdges(q, StageAt(q, i), members)
  }

  ghost function OverCapInRound(q: Query): nat -> bool {
    (i: nat) => OverCap(q, NewCategories(q, StageAt(q, i)))
  }

  /** What some round before the n-th gives. */
  ghost function Before<T(!new)>(part: nat -> set<T>, n: nat): set<T> {
    set i: nat, x | 0 <= i < n && x in part(i) :: x
  }

  ghost predicate EverBefore(flag: nat -> bool, n: nat) {
    exists i: nat :: i < n && flag(i)
  }

  ghost function EdgesBy(q: Query, rounds: nat, members: Memberships): set<Edge> {
    Before(EdgesOfRound(q, members), rounds)
  }

  /** A category met in these rounds had more members than the cap. */
  ghost predicate CappedBy(q: Query, rounds: nat) {
    EverBefore(OverCapInRound(q), rounds)
  }

  // ---------------------------------------------------------------- the result

  /**
   The sort keys of the source end in an id, so they are total orders: `byNode` compares layer, label and
   id, `byEdge` all four fields of an edge.
   */
  datatype Orders = Orders(byNode: (Node, Node) -> bool, byEdge: (Edge, Edge) -> bool)

  ghost predicate IsOrder<T(!new)>(leq: (T, T) -> bool) {
    TotalPreorder(leq) && Antisymmetric(leq)
  }

  datatype Graph = Graph(nodes: seq<Node>, edges: seq<Edge>, truncated: bool)

  /** _apply_node_limit: the selected node, and the first others. */
  ghost function KeptNodes(orders: Orders, all: set<Node>, selected: Node, limit: nat): set<Node> {
    if |all| <= limit then all
    else
      var others := InOrder(orders.byNode, all - {selected});
      set n | n in SelectedFirst([selected], others, limit)
  }

  ghost function KeptEdges(edges: set<Edge>, nodes: set<Node>): set<Edge> {
    set e | e in edges && e.source in nodes && e.target in nodes
  }

  /** The answer, with these relations on the member edges. */
  ghost predicate IsAnswer(q: Query, rounds: nat, limit: nat, orders: Orders, members: Memberships, g: Graph) {
    var all := StageNodes(q, StageAt(q, rounds));
    var kept := KeptNodes(orders, all, Canonical(q.selected), limit);
    && AreMemberships(q.db, StageAt(q, rounds).cats, members)
    && g.nodes == InOrder(orders.byNode, kept)
    && g.edges == InOrder(orders.byEdge, KeptEdges(EdgesBy(q, rounds, members), kept))
    && g.truncated == (CappedBy(q, rounds) || |all| > limit)
  }
}
