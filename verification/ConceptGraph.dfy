/** The tables the explorer reads, and what can be reached in them (app/skills/graph.py). */
module ConceptGraph {

  type Id = nat
  type SourceId = nat

  datatype Node = Canonical(id: Id) | Synthetic(source: string, externalId: string)

  datatype Layer = CanonicalLayer | SourceLayer

  datatype Edge = Edge(source: Node, target: Node, relation: string, layer: Layer)

  datatype CanonicalEdge = CanonicalEdge(subject: Id, relation: string, obj: Id)

  datatype SourceEdge = SourceEdge(subject: SourceId, relation: string, obj: SourceId)

  datatype SourceRow = SourceRow(source: string, externalId: string)

  datatype Db = Db(concepts: set<Id>, edges: set<CanonicalEdge>, sources: map<SourceId, SourceRow>,
                   sourceEdges: set<SourceEdge>, mappings: set<(SourceId, Id)>)

  /** Foreign keys. */
  ghost predicate WellFormed(db: Db) {
    && (forall e :: e in db.edges ==> e.subject in db.concepts && e.obj in db.concepts)
    && (forall e :: e in db.sourceEdges ==> e.subject in db.sources && e.obj in db.sources)
    && (forall m :: m in db.mappings ==> m.0 in db.sources && m.1 in db.concepts)
  }

  // ---------------------------------------------------------------- one link away

  function Adjacent(db: Db, a: Id): set<Id> {
    (set e | e in db.edges && e.subject == a :: e.obj) + (set e | e in db.edges && e.obj == a :: e.subject)
  }

  function SourcesOf(db: Db, a: Id): set<SourceId> {
    set m | m in db.mappings && m.1 == a :: m.0
  }

  function ConceptsOf(db: Db, s: SourceId): set<Id> {
    set m | m in db.mappings && m.0 == s :: m.1
  }

  /** The other ends of a source concept's edges. */
  function Opposite(db: Db, s: SourceId): set<SourceId> {
    (set e | e in db.sourceEdges && e.subject == s :: e.obj) + (set e | e in db.sourceEdges && e.obj == s :: e.subject)
  }

  /** The source concepts across an edge from one mapped to this concept. */
  function Across(db: Db, a: Id): set<SourceId> {
    set s, t | s in SourcesOf(db, a) && t in Opposite(db, s) :: t
  }

  /** The concepts of a category: those mapped from the other ends of its edges. */
  function Members(db: Db, k: SourceId): set<Id> {
    set t, c | t in Opposite(db, k) && c in ConceptsOf(db, t) :: c
  }

  /** The unmapped source concepts across an edge. */
  function CategoriesOf(db: Db, a: Id): set<SourceId> {
    set k | k in Across(db, a) && ConceptsOf(db, k) == {}
  }

  /** The concepts one round leads to from this one. */
  function Near(db: Db, a: Id): set<Id> {
    Adjacent(db, a)
    + (set t, c | t in Across(db, a) && c in ConceptsOf(db, t) :: c)
    + (set k, c | k in CategoriesOf(db, a) && c in Members(db, k) :: c)
  }

  function NearAll(db: Db, ids: set<Id>): set<Id> {
    set a, c | a in ids && c in Near(db, a) :: c
  }

  function CategoriesAll(db: Db, ids: set<Id>): set<SourceId> {
    set a, k | a in ids && k in CategoriesOf(db, a) :: k
  }

  function Round(db: Db, ids: set<Id>): set<Id> {
    ids + NearAll(db, ids)
  }

  /** The concepts within so many rounds. */
  function Within(db: Db, selected: Id, rounds: nat): set<Id> {
    Iterate(ids => Round(db, ids), {selected}, rounds)
  }

  function Iterate(f: set<Id> -> set<Id>, start: set<Id>, n: nat): set<Id> {
    if n == 0 then start else f(Iterate(f, start, n - 1))
  }

  /** From a fixed point on, iterating stays there. */
  lemma {:induction false} FixedPoint(f: set<Id> -> set<Id>, start: set<Id>, n: nat, later: nat, inner: set<Id>)
    requires n <= later && Iterate(f, start, n) == inner && f(inner) == inner
    ensures Iterate(f, start, later) == inner
    decreases later
  {
    if n < later {
      FixedPoint(f, start, n, later - 1, inner);
    }
  }

  /** The categories met in so many rounds. */
  function CategoriesWithin(db: Db, selected: Id, rounds: nat): set<SourceId> {
    if rounds == 0 then {} else CategoriesAll(db, Within(db, selected, rounds - 1))
  }

  function SyntheticNode(db: Db, s: SourceId): Node
    requires s in db.sources
  {
    Synthetic(db.sources[s].source, db.sources[s].externalId)
  }

  function Nodes(ids: set<Id>): set<Node> {
    set c | c in ids :: Canonical(c)
  }

  function CategoryNodes(db: Db, categories: set<SourceId>): set<Node> {
    set k | k in categories && k in db.sources :: SyntheticNode(db, k)
  }

  lemma NearGrows(db: Db, a: set<Id>, b: set<Id>)
    ensures NearAll(db, a + b) == NearAll(db, a) + NearAll(db, b)
    ensures CategoriesAll(db, a + b) == CategoriesAll(db, a) + CategoriesAll(db, b)
  {
  }

  lemma {:induction false} WithinGrows(db: Db, selected: Id, rounds: nat)
    ensures Within(db, selected, rounds) <= Within(db, selected, rounds + 1)
    ensures CategoriesWithin(db, selected, rounds) <= CategoriesWithin(db, selected, rounds + 1)
  {
    if rounds > 0 {
      WithinGrows(db, selected, rounds - 1);
      var inner, outer := Within(db, selected, rounds - 1), Within(db, selected, rounds);
      assert outer == inner + outer;
      NearGrows(db, inner, outer);
    }
  }

  lemma NextLevel(db: Db, selected: Id, rounds: nat, inner: set<Id>)
    requires Within(db, selected, rounds) == inner
    ensures Within(db, selected, rounds + 1) == Round(db, inner)
    ensures CategoriesWithin(db, selected, rounds + 1) == CategoriesAll(db, inner)
  {
  }

  /** Once a round adds nothing, no later round does. */
  lemma Settled(db: Db, selected: Id, rounds: nat, later: nat, inner: set<Id>)
    requires rounds <= later && Within(db, selected, rounds) == inner && Round(db, inner) == inner
    ensures Within(db, selected, later) == inner
  {
    var step := ids => Round(db, ids);
    assert step(inner) == inner;
    FixedPoint(step, {selected}, rounds, later, inner);
  }

  // ---------------------------------------------------------------- where a source concept is drawn

  ghost function Least(ids: set<Id>): (x: Id)
    requires ids != {}
    ensures x in ids && forall y :: y in ids ==> x <= y
    decreases ids
  {
    var x :| x in ids;
    if ids - {x} == {} then
      assert ids == {x};
      x
    else
      var y := Least(ids - {x});
      assert forall z :: z in ids ==> z == x || z in ids - {x};
      if x <= y then x else y
  }

  /** The concepts a source may be drawn as: those at the frontier, or all of them when none is. */
  function Candidates(db: Db, frontier: set<Id>, s: SourceId): set<Id> {
    if ConceptsOf(db, s) * frontier != {} then ConceptsOf(db, s) * frontier else ConceptsOf(db, s)
  }

  /** A mapped source is drawn as its least candidate, an unmapped one as a node of its own. */
  ghost function NodeOf(db: Db, frontier: set<Id>, s: SourceId): Node
    requires s in db.sources
  {
    if ConceptsOf(db, s) == {} then SyntheticNode(db, s) else Canonical(Least(Candidates(db, frontier, s)))
  }

  /** No source concept has two mappings. */
  ghost predicate OneConceptEach(mappings: set<(SourceId, Id)>) {
    forall s, a, b :: (s, a) in mappings && (s, b) in mappings ==> a == b
  }

  ghost predicate SingleMapping(db: Db) {
    OneConceptEach(db.mappings)
  }
}
