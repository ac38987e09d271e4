/** What the technologies, categories and relations of the deduplicated dataset say, in terms of the rows. */
module OnetFacts {
  import opened OnetDedup
  import opened Ordering
  import opened Seqs
  import opened Text

  // ---------------------------------------------------------------- technologies

  /** Some row of this key gives the technology this name. */
  ghost predicate GivenName(lex: Lexicon, rows: seq<Row>, key: string, n: string) {
    exists r :: r in rows && lex.norm(r.example) == key && r.example == n
  }

  /** Folded names compare first, and equal ones as they are written. */
  ghost predicate NamedBefore(lex: Lexicon, a: string, b: string) {
    if lex.fold(a) == lex.fold(b) then LexLeq(a, b) else LexLeq(lex.fold(a), lex.fold(b))
  }

  lemma NameLeqIff(lex: Lexicon, a: string, b: string)
    ensures NameLeq(lex)(a, b) <==> NamedBefore(lex, a, b)
  {
    var x, y := [lex.fold(a), a], [lex.fold(b), b];
    assert x[1..] == [a] && y[1..] == [b];
    assert x[1..][1..] == [] && y[1..][1..] == [];
    LexLeqTotal(a, a);
    assert TupleLeq(x[1..], y[1..]) <==> LexLeq(a, b);
  }

  lemma RowsOfMembers(lex: Lexicon, rows: seq<Row>, key: string)
    ensures forall r :: r in RowsOf(lex, rows, key) <==> r in rows && lex.norm(r.example) == key
  {
    forall r
      ensures r in RowsOf(lex, rows, key) <==> r in rows && lex.norm(r.example) == key
    {
      FilterCounts(HasKey(lex, key), rows, r);
      assert r in RowsOf(lex, rows, key) <==> r in multiset(RowsOf(lex, rows, key));
      assert r in rows <==> r in multiset(rows);
    }
  }

  /** The technology's key, and what it is made from. */
  lemma TechnologyIsOf(lex: Lexicon, rows: seq<Row>, t: Technology)
    requires t in Technologies(lex, rows)
    ensures t.key in KeysOf(lex, rows) && t == TechnologyOf(lex, t.key, RowsOf(lex, rows, t.key))
  {
    var keys := InOrder(LexLeq, KeysOf(lex, rows));
    InOrderMembers(LexLeq, KeysOf(lex, rows));
    MapMembers(TechnologyFor(lex, rows), keys, t);
    var key :| key in keys && TechnologyFor(lex, rows)(key) == t;
  }

  lemma GivenIff(lex: Lexicon, rows: seq<Row>, key: string, n: string)
    ensures n in Examples(RowsOf(lex, rows, key)) <==> GivenName(lex, rows, key, n)
  {
    RowsOfMembers(lex, rows, key);
  }

  lemma NamesOf(lex: Lexicon, key: string, group: seq<Row>, t: Technology)
    requires t == TechnologyOf(lex, key, group) && group != []
    ensures t.externalId == lex.technologyId(key)
    ensures NoDuplicates(t.names) && forall n :: n in t.names <==> n in Examples(group)
    ensures forall i, j :: 0 <= i < j < |t.names| ==> NamedBefore(lex, t.names[i], t.names[j])
    ensures t.names != [] && t.name == t.names[0]
  {
    InOrderMembers(NameLeq(lex), Examples(group));
    NamesInOrder(lex, Examples(group));
    assert group[0].example in Examples(group);
  }

  lemma KeyHasRows(lex: Lexicon, rows: seq<Row>, key: string)
    requires key in KeysOf(lex, rows)
    ensures RowsOf(lex, rows, key) != []
  {
    RowsOfMembers(lex, rows, key);
    var r :| r in rows && lex.norm(r.example) == key;
    assert r in RowsOf(lex, rows, key);
  }

  /**
   A technology has the id of its key; its names are the distinct examples given for the key, in name order,
   and the first of them is its name.
   */
  lemma TechnologyNames(lex: Lexicon, rows: seq<Row>, t: Technology)
    requires t in Technologies(lex, rows)
    ensures t.externalId == lex.technologyId(t.key)
    ensures NoDuplicates(t.names) && forall n :: n in t.names <==> GivenName(lex, rows, t.key, n)
    ensures forall i, j :: 0 <= i < j < |t.names| ==> NamedBefore(lex, t.names[i], t.names[j])
    ensures t.names != [] && t.name == t.names[0]
  {
    TechnologyIsOf(lex, rows, t);
    KeyHasRows(lex, rows, t.key);
    NamesOf(lex, t.key, RowsOf(lex, rows, t.key), t);
    forall n
      ensures n in t.names <==> GivenName(lex, rows, t.key, n)
    {
      GivenIff(lex, rows, t.key, n);
    }
  }

  lemma NamesInOrder(lex: Lexicon, names: set<string>)
    ensures var list := InOrder(NameLeq(lex), names);
            forall i, j :: 0 <= i < j < |list| ==> NamedBefore(lex, list[i], list[j])
  {
    NameOrder(lex);
    SortSorted(NameLeq(lex), SomeList(names));
    var list := InOrder(NameLeq(lex), names);
    forall i, j | 0 <= i < j < |list|
      ensures NamedBefore(lex, list[i], list[j])
    {
      NameLeqIff(lex, list[i], list[j]);
    }
  }

  lemma AssociationOfRow(lex: Lexicon, key: string, group: seq<Row>, a: Association)
    ensures a in TechnologyOf(lex, key, group).associations <==>
              exists r :: r in group && RowAssociation(lex)(r) == a
  {
    var associations := TechnologyOf(lex, key, group).associations;
    GroupKept(lex, key, group);
    assert a in associations <==> a in multiset(associations);
    assert a in Map(RowAssociation(lex), group) <==> a in multiset(Map(RowAssociation(lex), group));
    MapMembers(RowAssociation(lex), group, a);
  }

  lemma FlagsOf(lex: Lexicon, group: seq<Row>, associations: seq<Association>)
    requires forall a :: a in associations <==> exists r :: r in group && RowAssociation(lex)(r) == a
    ensures AnyHot(associations) <==> exists r :: r in group && lex.yes(r.fields.hot)
    ensures AnyInDemand(associations) <==> exists r :: r in group && lex.yes(r.fields.inDemand)
  {
    if a :| a in associations && a.hot {
      var r :| r in group && RowAssociation(lex)(r) == a;
    }
    if a :| a in associations && a.inDemand {
      var r :| r in group && RowAssociation(lex)(r) == a;
    }
    if r :| r in group && lex.yes(r.fields.hot) {
      assert RowAssociation(lex)(r) in associations;
    }
    if r :| r in group && lex.yes(r.fields.inDemand) {
      assert RowAssociation(lex)(r) in associations;
    }
  }

  lemma GroupFlags(lex: Lexicon, key: string, group: seq<Row>, t: Technology)
    requires t == TechnologyOf(lex, key, group)
    ensures t.hot <==> exists r :: r in group && lex.yes(r.fields.hot)
    ensures t.inDemand <==> exists r :: r in group && lex.yes(r.fields.inDemand)
  {
    forall a
      ensures a in t.associations <==> exists r :: r in group && RowAssociation(lex)(r) == a
    {
      AssociationOfRow(lex, key, group, a);
    }
    FlagsOf(lex, group, t.associations);
  }

  /** It is hot, or in demand, when some row of its key says so. */
  lemma TechnologyFlags(lex: Lexicon, rows: seq<Row>, t: Technology)
    requires t in Technologies(lex, rows)
    ensures t.hot <==> exists r :: r in rows && lex.norm(r.example) == t.key && lex.yes(r.fields.hot)
    ensures t.inDemand <==> exists r :: r in rows && lex.norm(r.example) == t.key && lex.yes(r.fields.inDemand)
  {
    TechnologyIsOf(lex, rows, t);
    RowsOfMembers(lex, rows, t.key);
    GroupFlags(lex, t.key, RowsOf(lex, rows, t.key), t);
  }

  /** An association is its row's four texts, and its two flags read as yes or no. */
  lemma AssociationReads(lex: Lexicon, r: Row)
    ensures var a := RowAssociation(lex)(r);
            && a.socCode == r.fields.socCode && a.title == r.fields.title
            && a.elementId == r.fields.elementId && a.elementName == r.fields.elementName
            && a.hot == lex.yes(r.fields.hot) && a.inDemand == lex.yes(r.fields.inDemand)
  {
  }

  // ---------------------------------------------------------------- what technologies say of categories

  lemma {:induction false} TagMembers(externalId: string, associations: seq<Association>, x: Given)
    ensures x in Tag(externalId, associations) <==> x.0 == externalId && x.1 in associations
  {
    if associations != [] {
      var front, last := associations[..|associations| - 1], associations[|associations| - 1];
      TagMembers(externalId, front, x);
      assert associations == front + [last];
    }
  }

  lemma {:induction false} FlatMembers(technologies: seq<Technology>, x: Given)
    ensures x in Flat(technologies) <==> exists t :: t in technologies && t.externalId == x.0 && x.1 in t.associations
  {
    if technologies != [] {
      var front, last := technologies[..|technologies| - 1], technologies[|technologies| - 1];
      FlatMembers(front, x);
      TagMembers(last.externalId, last.associations, x);
      assert technologies == front + [last];
    }
  }

  /** Some technology has an association with this element, under this name. */
  ghost predicate Said(technologies: seq<Technology>, element: string, name: string) {
    exists t, a :: t in technologies && a in t.associations && a.elementId == element && a.elementName == name
  }

  /** The names some technology gives the element. */
  ghost function SaidFor(technologies: seq<Technology>, element: string): string -> bool {
    (n: string) => Said(technologies, element, n)
  }

  lemma SaidIff(technologies: seq<Technology>, element: string, name: string)
    ensures name in NamesIn(Flat(technologies), element) <==> Said(technologies, element, name)
  {
    if name in NamesIn(Flat(technologies), element) {
      var x :| x in Flat(technologies) && x.1.elementId == element && x.1.elementName == name;
      FlatMembers(technologies, x);
    }
    if Said(technologies, element, name) {
      var t, a :| t in technologies && a in t.associations && a.elementId == element && a.elementName == name;
      var x: Given := (t.externalId, a);
      FlatMembers(technologies, x);
      assert x in Flat(technologies);
    }
  }

  lemma ElementIff(technologies: seq<Technology>, element: string)
    ensures element in ElementsIn(Flat(technologies)) <==>
              element != "" && exists name :: Said(technologies, element, name)
  {
    if element in ElementsIn(Flat(technologies)) {
      var x :| x in Flat(technologies) && x.1.elementId != "" && x.1.elementId == element;
      assert x.1.elementName in NamesIn(Flat(technologies), element);
      SaidIff(technologies, element, x.1.elementName);
    }
    if element != "" {
      if name :| Said(technologies, element, name) {
        SaidIff(technologies, element, name);
        var x :| x in Flat(technologies) && x.1.elementId == element && x.1.elementName == name;
      }
    }
  }

  // ---------------------------------------------------------------- categories

  /**
   There is a category for exactly the element ids some technology is associated with; its names are the
   non-blank names given for the element, and its name is the first of them in name order, or the element id.
   */
  lemma CategoryMeans(lex: Lexicon, rows: seq<Row>, technologies: seq<Technology>, c: Category)
    requires technologies == Technologies(lex, rows) && c in Deduplicated(lex, rows).categories
    ensures c.elementId != "" && exists name :: Said(technologies, c.elementId, name)
    ensures c.externalId == lex.categoryId(c.elementId)
    ensures NoDuplicates(c.names) && forall n :: n in c.names <==> n != "" && SaidFor(technologies, c.elementId)(n)
    ensures FirstOfNames(lex, c)
  {
    var given := CategoryIsOf(lex, rows, technologies, c);
    CategoryOfNames(lex, c, given);
  }

  /** The category's name is the first of its names in name order, or its element id when it has none. */
  ghost predicate FirstOfNames(lex: Lexicon, c: Category) {
    if c.names == [] then c.name == c.elementId
    else c.name in c.names && forall n :: n in c.names ==> NamedBefore(lex, c.name, n)
  }

  /** The category's fields, in terms of the non-blank names given for its element. */
  ghost predicate HasParts(lex: Lexicon, c: Category, given: set<string>) {
    var ordered := InOrder(NameLeq(lex), given);
    && c.externalId == lex.categoryId(c.elementId) && c.names == InOrder(LexLeq, given)
    && c.name == if ordered == [] then c.elementId else ordered[0]
  }

  lemma CategoryParts(lex: Lexicon, element: string, names: set<string>)
    ensures HasParts(lex, CategoryOf(lex, element, names), names - {""})
  {
  }

  lemma CategoryOfNames(lex: Lexicon, c: Category, given: set<string>)
    requires HasParts(lex, c, given)
    ensures NoDuplicates(c.names) && (forall n :: n in c.names <==> n in given) && FirstOfNames(lex, c)
  {
    InOrderMembers(LexLeq, given);
    FirstIsLeast(lex, c, given, InOrder(NameLeq(lex), given));
  }

  lemma FirstIsLeast(lex: Lexicon, c: Category, given: set<string>, ordered: seq<string>)
    requires ordered == InOrder(NameLeq(lex), given) && c.name == if ordered == [] then c.elementId else ordered[0]
    requires forall n :: n in c.names <==> n in given
    ensures FirstOfNames(lex, c)
  {
    LeastName(lex, given);
    SameEmptiness(c.names, ordered);
  }

  lemma SameEmptiness(a: seq<string>, b: seq<string>)
    requires forall n :: n in a <==> n in b
    ensures a == [] <==> b == []
  {
    if a != [] {
      assert a[0] in a;
    }
    if b != [] {
      assert b[0] in b;
    }
  }

  lemma CategoryIsOf(lex: Lexicon, rows: seq<Row>, technologies: seq<Technology>, c: Category)
    returns (given: set<string>)
    requires technologies == Technologies(lex, rows) && c in Deduplicated(lex, rows).categories
    ensures c.elementId != "" && exists name :: Said(technologies, c.elementId, name)
    ensures HasParts(lex, c, given) && forall n :: n in given <==> n != "" && SaidFor(technologies, c.elementId)(n)
  {
    given := NamesIn(Flat(technologies), c.elementId) - {""};
    MappedCategory(lex, Flat(technologies), c, NamesIn(Flat(technologies), c.elementId));
    ElementIff(technologies, c.elementId);
    SaidAll(technologies, c.elementId);
    WithoutBlank(NamesIn(Flat(technologies), c.elementId), given, SaidFor(technologies, c.elementId));
  }

  lemma SaidAll(technologies: seq<Technology>, element: string)
    ensures forall n :: n in NamesIn(Flat(technologies), element) <==> SaidFor(technologies, element)(n)
  {
    forall n
      ensures n in NamesIn(Flat(technologies), element) <==> SaidFor(technologies, element)(n)
    {
      SaidIff(technologies, element, n);
    }
  }

  lemma WithoutBlank(names: set<string>, given: set<string>, said: string -> bool)
    requires given == names - {""} && forall n :: n in names <==> said(n)
    ensures forall n :: n in given <==> n != "" && said(n)
  {
  }

  lemma MappedCategory(lex: Lexicon, flat: seq<Given>, c: Category, names: set<string>)
    requires c in Map(CategoryFor(lex, flat), InOrder(LexLeq, ElementsIn(flat)))
    requires names == NamesIn(flat, c.elementId)
    ensures c.elementId in ElementsIn(flat) && HasParts(lex, c, names - {""})
  {
    var elements := InOrder(LexLeq, ElementsIn(flat));
    InOrderMembers(LexLeq, ElementsIn(flat));
    MapMembers(CategoryFor(lex, flat), elements, c);
    var e :| e in elements && CategoryFor(lex, flat)(e) == c;
    CategoryParts(lex, e, NamesIn(flat, e));
  }

  /** The first in name order comes before all. */
  lemma LeastName(lex: Lexicon, names: set<string>)
    ensures var ordered := InOrder(NameLeq(lex), names);
            && (forall n :: n in ordered <==> n in names)
            && (ordered != [] ==> ordered[0] in names && forall n :: n in names ==> NamedBefore(lex, ordered[0], n))
  {
    InOrderMembers(NameLeq(lex), names);
    NamesInOrder(lex, names);
    var ordered := InOrder(NameLeq(lex), names);
    forall n | n in ordered
      ensures NamedBefore(lex, ordered[0], n)
    {
      var i :| 0 <= i < |ordered| && ordered[i] == n;
      LexLeqTotal(n, n);
    }
  }

  /** Every element id some technology is associated with has its category. */
  lemma ElementHasCategory(lex: Lexicon, rows: seq<Row>, technologies: seq<Technology>, t: Technology, a: Association)
    requires technologies == Technologies(lex, rows)
    requires t in technologies && a in t.associations && a.elementId != ""
    ensures exists c :: c in Deduplicated(lex, rows).categories && c.elementId == a.elementId
  {
    assert Said(technologies, a.elementId, a.elementName);
    ElementIff(technologies, a.elementId);
    ElementMapped(lex, Flat(technologies), a.elementId);
  }

  lemma ElementMapped(lex: Lexicon, flat: seq<Given>, element: string)
    requires element in ElementsIn(flat)
    ensures exists c :: c in Map(CategoryFor(lex, flat), InOrder(LexLeq, ElementsIn(flat))) && c.elementId == element
  {
    InOrderMembers(LexLeq, ElementsIn(flat));
    var c := CategoryFor(lex, flat)(element);
    MapMembers(CategoryFor(lex, flat), InOrder(LexLeq, ElementsIn(flat)), c);
  }

  // ---------------------------------------------------------------- relations

  ghost function OfElement(element: string): Association -> bool {
    (a: Association) => a.elementId == element
  }

  lemma {:induction false} ForPairAppend(x: seq<Given>, y: seq<Given>, pair: (string, string))
    ensures ForPair(x + y, pair) == ForPair(x, pair) + ForPair(y, pair)
  {
    if y == [] {
      assert x + y == x;
    } else {
      var front, last := y[..|y| - 1], y[|y| - 1];
      ForPairAppend(x, front, pair);
      assert (x + y)[..|x + y| - 1] == x + front;
    }
  }

  lemma {:induction false} ForPairOfOne(externalId: string, associations: seq<Association>, pair: (string, string))
    ensures ForPair(Tag(externalId, associations), pair)
            == if externalId == pair.0 then Filter(OfElement(pair.1), associations) else []
  {
    if associations != [] {
      var front, last := associations[..|associations| - 1], associations[|associations| - 1];
      ForPairOfOne(externalId, front, pair);
      ForPairAppend(Tag(externalId, front), [(externalId, last)], pair);
      assert [(externalId, last)][..0] == [];
    }
  }

  ghost predicate IdsDistinct(technologies: seq<Technology>) {
    forall i, j :: 0 <= i < j < |technologies| ==> technologies[i].externalId != technologies[j].externalId
  }

  lemma NextForPair(front: seq<Technology>, last: Technology, pair: (string, string))
    ensures ForPair(Flat(front + [last]), pair)
            == ForPair(Flat(front), pair)
               + if last.externalId == pair.0 then Filter(OfElement(pair.1), last.associations) else []
  {
    assert (front + [last])[..|front|] == front;
    ForPairAppend(Flat(front), Tag(last.externalId, last.associations), pair);
    ForPairOfOne(last.externalId, last.associations, pair);
  }

  /** What is given for an id and an element is what the one technology with that id is associated with. */
  lemma {:induction false} ForPairOf(technologies: seq<Technology>, k: nat, element: string)
    requires IdsDistinct(technologies) && k < |technologies|
    ensures ForPair(Flat(technologies), (technologies[k].externalId, element))
            == Filter(OfElement(element), technologies[k].associations)
  {
    var n := |technologies| - 1;
    var front, last := technologies[..n], technologies[n];
    var pair := (technologies[k].externalId, element);
    assert technologies == front + [last];
    NextForPair(front, last, pair);
    if k < n {
      ForPairOf(front, k, element);
    } else {
      NoneForPair(front, pair);
    }
  }

  lemma {:induction false} NoneForPair(technologies: seq<Technology>, pair: (string, string))
    requires forall t :: t in technologies ==> t.externalId != pair.0
    ensures ForPair(Flat(technologies), pair) == []
  {
    if technologies != [] {
      var front, last := technologies[..|technologies| - 1], technologies[|technologies| - 1];
      NoneForPair(front, pair);
      assert technologies == front + [last];
      NextForPair(front, last, pair);
    }
  }

  lemma PairMapped(lex: Lexicon, flat: seq<Given>, pair: (string, string))
    requires pair in PairsIn(flat)
    ensures RelationOf(lex, pair, ForPair(flat, pair)) in Map(RelationFor(lex, flat), InOrder(PairLeq, PairsIn(flat)))
  {
    InOrderMembers(PairLeq, PairsIn(flat));
    MapMembers(RelationFor(lex, flat), InOrder(PairLeq, PairsIn(flat)), RelationFor(lex, flat)(pair));
  }

  lemma AssociatedPair(technologies: seq<Technology>, t: Technology, a: Association)
    requires t in technologies && a in t.associations && a.elementId != ""
    ensures (t.externalId, a.elementId) in PairsIn(Flat(technologies))
  {
    var x: Given := (t.externalId, a);
    FlatMembers(technologies, x);
    assert x in Flat(technologies);
  }

  /** The relation runs from the technology to the category and holds these associations, in association order. */
  ghost predicate Relates(r: Relation, subject: string, obj: string, mine: seq<Association>) {
    && r.subject == subject && r.obj == obj
    && multiset(r.associations) == multiset(mine) && Sorted(AssociationLeq, r.associations)
  }

  lemma RelationOfRelates(lex: Lexicon, subject: string, element: string, mine: seq<Association>)
    ensures Relates(RelationOf(lex, (subject, element), mine), subject, lex.categoryId(element), mine)
  {
    AssociationOrder();
    SortMultiset(AssociationLeq, mine);
    SortSorted(AssociationLeq, mine);
  }

  lemma AssociationOrder()
    ensures TotalPreorder(AssociationLeq)
  {
    forall a: Association, b: Association
      ensures AssociationLeq(a, b) || AssociationLeq(b, a)
    {
      TupleLeqTotal(AssociationKey(a), AssociationKey(b));
    }
    forall a: Association, b: Association, c: Association | AssociationLeq(a, b) && AssociationLeq(b, c)
      ensures AssociationLeq(a, c)
    {
      TupleLeqTransitive(AssociationKey(a), AssociationKey(b), AssociationKey(c));
    }
  }

  /**
   The relation of a technology and an element it is associated with is there, from the technology's id to the
   category's, and holds exactly that technology's associations with that element, in association order.
   */
  lemma RelationMeans(lex: Lexicon, rows: seq<Row>, technologies: seq<Technology>, k: nat, a: Association)
    requires technologies == Technologies(lex, rows) && IdsDistinct(technologies) && k < |technologies|
    requires a in technologies[k].associations && a.elementId != ""
    ensures exists r :: r in Deduplicated(lex, rows).relations
                        && Relates(r, technologies[k].externalId, lex.categoryId(a.elementId),
                                   Filter(OfElement(a.elementId), technologies[k].associations))
  {
    var t := technologies[k];
    AssociatedPair(technologies, t, a);
    PairMapped(lex, Flat(technologies), (t.externalId, a.elementId));
    ForPairOf(technologies, k, a.elementId);
    RelationOfRelates(lex, t.externalId, a.elementId, Filter(OfElement(a.elementId), t.associations));
  }

  /** And there is no other: every relation is that of a technology and an element it is associated with. */
  lemma RelationComesFrom(lex: Lexicon, rows: seq<Row>, technologies: seq<Technology>, r: Relation)
    requires technologies == Technologies(lex, rows) && r in Deduplicated(lex, rows).relations
    ensures exists t, a :: t in technologies && a in t.associations && a.elementId != ""
                           && r.subject == t.externalId && r.obj == lex.categoryId(a.elementId)
  {
    var flat := Flat(technologies);
    var x := MappedRelation(lex, flat, r);
    FlatMembers(technologies, x);
  }

  lemma MappedRelation(lex: Lexicon, flat: seq<Given>, r: Relation) returns (x: Given)
    requires r in Map(RelationFor(lex, flat), InOrder(PairLeq, PairsIn(flat)))
    ensures x in flat && x.1.elementId != "" && r.subject == x.0 && r.obj == lex.categoryId(x.1.elementId)
  {
    InOrderMembers(PairLeq, PairsIn(flat));
    MapMembers(RelationFor(lex, flat), InOrder(PairLeq, PairsIn(flat)), r);
    var pair :| pair in InOrder(PairLeq, PairsIn(flat)) && RelationFor(lex, flat)(pair) == r;
    x :| x in flat && x.1.elementId != "" && pair == (x.0, x.1.elementId);
  }
}
