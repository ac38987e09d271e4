/** deduplicate_software_skills (app/skills/importers/onet.py). */
module OnetDedup {
  import opened Ordering
  import opened Seqs
  import opened Text

  /** normalize_label, str.casefold, the yes/no reading, and the two external ids. */
  datatype Lexicon = Lexicon(norm: string -> string, fold: string -> string, yes: string -> bool,
                             technologyId: string -> string, categoryId: string -> string)

  /** The six fields that describe an occupation, and the example they were given for. */
  datatype Fields = Fields(socCode: string, title: string, elementId: string, elementName: string, hot: string,
                           inDemand: string)

  datatype Row = Row(example: string, fields: Fields)

  datatype Association = Association(socCode: string, title: string, elementId: string, elementName: string,
                                     hot: bool, inDemand: bool)

  datatype Technology = Technology(externalId: string, name: string, key: string, names: seq<string>,
                                   associations: seq<Association>, hot: bool, inDemand: bool)

  datatype Category = Category(externalId: string, name: string, elementId: string, names: seq<string>)

  datatype Relation = Relation(subject: string, obj: string, associations: seq<Association>)

  datatype Dataset = Dataset(technologies: seq<Technology>, categories: seq<Category>, relations: seq<Relation>)

  function FieldsKey(f: Fields): seq<string> {
    [f.socCode, f.title, f.elementId, f.elementName, f.hot, f.inDemand]
  }

  predicate FieldsLeq(a: Fields, b: Fields) {
    TupleLeq(FieldsKey(a), FieldsKey(b))
  }

  function BoolText(b: bool): string {
    if b then "True" else "False"
  }

  function AssociationKey(a: Association): seq<string> {
    [a.socCode, a.title, a.elementId, a.elementName, BoolText(a.hot), BoolText(a.inDemand)]
  }

  predicate AssociationLeq(a: Association, b: Association) {
    TupleLeq(AssociationKey(a), AssociationKey(b))
  }

  /** Names in order of their folded form, then of themselves. */
  function NameLeq(lex: Lexicon): (string, string) -> bool {
    (a: string, b: string) => TupleLeq([lex.fold(a), a], [lex.fold(b), b])
  }

  function ToAssociation(lex: Lexicon, f: Fields): Association {
    Association(f.socCode, f.title, f.elementId, f.elementName, lex.yes(f.hot), lex.yes(f.inDemand))
  }

  lemma FieldsOrder()
    ensures TotalPreorder(FieldsLeq) && Antisymmetric(FieldsLeq)
  {
    forall a: Fields, b: Fields
      ensures FieldsLeq(a, b) || FieldsLeq(b, a)
      ensures FieldsLeq(a, b) && FieldsLeq(b, a) ==> a == b
    {
      TupleLeqTotal(FieldsKey(a), FieldsKey(b));
      if FieldsLeq(a, b) && FieldsLeq(b, a) {
        TupleLeqAntisymmetric(FieldsKey(a), FieldsKey(b));
        SameFields(a, b);
      }
    }
    forall a: Fields, b: Fields, c: Fields | FieldsLeq(a, b) && FieldsLeq(b, c)
      ensures FieldsLeq(a, c)
    {
      TupleLeqTransitive(FieldsKey(a), FieldsKey(b), FieldsKey(c));
    }
  }

  lemma SameFields(a: Fields, b: Fields)
    requires FieldsKey(a) == FieldsKey(b)
    ensures a == b
  {
    var x, y := FieldsKey(a), FieldsKey(b);
    assert x[0] == y[0] && x[1] == y[1] && x[2] == y[2] && x[3] == y[3] && x[4] == y[4] && x[5] == y[5];
  }

  lemma NameOrder(lex: Lexicon)
    ensures TotalPreorder(NameLeq(lex)) && Antisymmetric(NameLeq(lex))
  {
    var leq := NameLeq(lex);
    forall a, b
      ensures leq(a, b) || leq(b, a)
      ensures leq(a, b) && leq(b, a) ==> a == b
    {
      TupleLeqTotal([lex.fold(a), a], [lex.fold(b), b]);
      if leq(a, b) && leq(b, a) {
        TupleLeqAntisymmetric([lex.fold(a), a], [lex.fold(b), b]);
        assert [lex.fold(a), a][1] == [lex.fold(b), b][1];
      }
    }
    forall a, b, c | leq(a, b) && leq(b, c)
      ensures leq(a, c)
    {
      TupleLeqTransitive([lex.fold(a), a], [lex.fold(b), b], [lex.fold(c), c]);
    }
  }

  lemma StringOrder()
    ensures TotalPreorder(LexLeq) && Antisymmetric(LexLeq)
  {
    forall a, b
      ensures LexLeq(a, b) || LexLeq(b, a)
      ensures LexLeq(a, b) && LexLeq(b, a) ==> a == b
    {
      LexLeqTotal(a, b);
      if LexLeq(a, b) && LexLeq(b, a) {
        LexLeqAntisymmetric(a, b);
      }
    }
    forall a, b, c | LexLeq(a, b) && LexLeq(b, c)
      ensures LexLeq(a, c)
    {
      LexLeqTransitive(a, b, c);
    }
  }

  // ---------------------------------------------------------------- technologies

  function KeysOf(lex: Lexicon, rows: seq<Row>): set<string> {
    set r | r in rows && lex.norm(r.example) != "" :: lex.norm(r.example)
  }

  function HasKey(lex: Lexicon, key: string): Row -> bool {
    (r: Row) => lex.norm(r.example) == key
  }

  function RowsOf(lex: Lexicon, rows: seq<Row>, key: string): seq<Row> {
    Filter(HasKey(lex, key), rows)
  }

  function RowFields(r: Row): Fields {
    r.fields
  }

  /** The associations of a technology: its rows sorted by their six fields, the last two read as yes or no. */
  function AssociationsOf(lex: Lexicon, group: seq<Row>): seq<Association> {
    Associate(lex, Map(RowFields, Sort(ByKey(FieldsLeq, RowFields), group)))
  }

  function Associate(lex: Lexicon, fields: seq<Fields>): seq<Association> {
    if fields == [] then [] else [ToAssociation(lex, fields[0])] + Associate(lex, fields[1..])
  }

  predicate AnyHot(associations: seq<Association>) {
    exists a | a in associations :: a.hot
  }

  predicate AnyInDemand(associations: seq<Association>) {
    exists a | a in associations :: a.inDemand
  }

  function Examples(group: seq<Row>): set<string> {
    set r | r in group :: r.example
  }

  ghost function TechnologyOf(lex: Lexicon, key: string, group: seq<Row>): Technology {
    var names := InOrder(NameLeq(lex), Examples(group));
    var associations := AssociationsOf(lex, group);
    Technology(lex.technologyId(key), if names == [] then "" else names[0], key, names, associations,
               AnyHot(associations), AnyInDemand(associations))
  }

  ghost function TechnologyFor(lex: Lexicon, rows: seq<Row>): string -> Technology {
    key => TechnologyOf(lex, key, RowsOf(lex, rows, key))
  }

  ghost function Technologies(lex: Lexicon, rows: seq<Row>): seq<Technology> {
    Map(TechnologyFor(lex, rows), InOrder(LexLeq, KeysOf(lex, rows)))
  }

  /** A technology depends on its rows only as a multiset. */
  lemma TechnologyInvariant(lex: Lexicon, key: string, a: seq<Row>, b: seq<Row>)
    requires multiset(a) == multiset(b)
    ensures TechnologyOf(lex, key, a) == TechnologyOf(lex, key, b)
  {
    AssociationsInvariant(lex, a, b);
    assert forall r :: r in a <==> r in multiset(a);
    assert forall r :: r in b <==> r in multiset(b);
    assert Examples(a) == Examples(b);
  }

  /** Rows that tie in the sort give equal associations, so a stable sort leaves no trace of the input order. */
  lemma AssociationsInvariant(lex: Lexicon, a: seq<Row>, b: seq<Row>)
    requires multiset(a) == multiset(b)
    ensures AssociationsOf(lex, a) == AssociationsOf(lex, b)
  {
    SortThenMap(FieldsLeq, RowFields, a);
    SortThenMap(FieldsLeq, RowFields, b);
    MapMultiset(RowFields, a, b);
    FieldsOrder();
    SortPermutation(FieldsLeq, Map(RowFields, a), Map(RowFields, b));
  }

  lemma {:induction false} MapSame<A(!new), B>(f: A -> B, g: A -> B, s: seq<A>)
    requires forall x :: f(x) == g(x)
    ensures Map(f, s) == Map(g, s)
  {
    if s != [] {
      MapSame(f, g, s[1..]);
    }
  }

  lemma TechnologiesInvariant(lex: Lexicon, a: seq<Row>, b: seq<Row>)
    requires multiset(a) == multiset(b)
    ensures Technologies(lex, a) == Technologies(lex, b)
  {
    var f, g := TechnologyFor(lex, a), TechnologyFor(lex, b);
    forall key
      ensures f(key) == g(key)
    {
      TechnologyOfKeyInvariant(lex, a, b, key);
    }
    KeysInvariant(lex, a, b);
    var keys := InOrder(LexLeq, KeysOf(lex, a));
    MapSame(f, g, keys);
    assert keys == InOrder(LexLeq, KeysOf(lex, b));
  }

  lemma TechnologyOfKeyInvariant(lex: Lexicon, a: seq<Row>, b: seq<Row>, key: string)
    requires multiset(a) == multiset(b)
    ensures TechnologyFor(lex, a)(key) == TechnologyFor(lex, b)(key)
  {
    FilterMultiset(HasKey(lex, key), a, b);
    TechnologyInvariant(lex, key, RowsOf(lex, a, key), RowsOf(lex, b, key));
  }

  lemma KeysInvariant(lex: Lexicon, a: seq<Row>, b: seq<Row>)
    requires multiset(a) == multiset(b)
    ensures KeysOf(lex, a) == KeysOf(lex, b)
  {
    assert forall r :: r in a <==> r in multiset(a);
    assert forall r :: r in b <==> r in multiset(b);
  }

  // ---------------------------------------------------------------- categories and relations

  type Given = (string, Association)

  function Tag(externalId: string, associations: seq<Association>): seq<Given> {
    if associations == [] then []
       else Tag(externalId, associations[..|associations| - 1]) + [(externalId, associations[|associations| - 1])]
  }

  /** Every association with the technology it was given for, in order. */
  function Flat(technologies: seq<Technology>): seq<Given> {
    if technologies == [] then []
    else
      var last := technologies[|technologies| - 1];
      Flat(technologies[..|technologies| - 1]) + Tag(last.externalId, last.associations)
  }

  function NamesIn(flat: seq<Given>, element: string): set<string> {
    set x | x in flat && x.1.elementId == element :: x.1.elementName
  }

  function ElementsIn(flat: seq<Given>): set<string> {
    set x | x in flat && x.1.elementId != "" :: x.1.elementId
  }

  function PairsIn(flat: seq<Given>): set<(string, string)> {
    set x | x in flat && x.1.elementId != "" :: (x.0, x.1.elementId)
  }

  /** The associations of one technology id with one element, in order. */
  function ForPair(flat: seq<Given>, pair: (string, string)): seq<Association> {
    if flat == [] then []
    else
      var last := flat[|flat| - 1];
      ForPair(flat[..|flat| - 1], pair) + (if (last.0, last.1.elementId) == pair then [last.1] else [])
  }

  ghost function CategoryOf(lex: Lexicon, element: string, names: set<string>): Category {
    var ordered := InOrder(NameLeq(lex), names - {""});
    Category(lex.categoryId(element), if ordered == [] then element else ordered[0], element,
             InOrder(LexLeq, names - {""}))
  }

  ghost function CategoryFor(lex: Lexicon, flat: seq<Given>): string -> Category {
    element => CategoryOf(lex, element, NamesIn(flat, element))
  }

  function RelationOf(lex: Lexicon, pair: (string, string), associations: seq<Association>): Relation {
    Relation(pair.0, lex.categoryId(pair.1), Sort(AssociationLeq, associations))
  }

  function RelationFor(lex: Lexicon, flat: seq<Given>): ((string, string)) -> Relation {
    pair => RelationOf(lex, pair, ForPair(flat, pair))
  }

  predicate PairLeq(a: (string, string), b: (string, string)) {
    TupleLeq([a.0, a.1], [b.0, b.1])
  }

  lemma PairOrder()
    ensures TotalPreorder(PairLeq) && Antisymmetric(PairLeq)
  {
    forall a, b
      ensures PairLeq(a, b) || PairLeq(b, a)
      ensures PairLeq(a, b) && PairLeq(b, a) ==> a == b
    {
      TupleLeqTotal([a.0, a.1], [b.0, b.1]);
      if PairLeq(a, b) && PairLeq(b, a) {
        TupleLeqAntisymmetric([a.0, a.1], [b.0, b.1]);
        assert [a.0, a.1][0] == [b.0, b.1][0] && [a.0, a.1][1] == [b.0, b.1][1];
      }
    }
    forall a, b, c | PairLeq(a, b) && PairLeq(b, c)
      ensures PairLeq(a, c)
    {
      TupleLeqTransitive([a.0, a.1], [b.0, b.1], [c.0, c.1]);
    }
  }

  /** The dataset of a list of rows. */
  ghost function Deduplicated(lex: Lexicon, rows: seq<Row>): Dataset {
    var technologies := Technologies(lex, rows);
    var flat := Flat(technologies);
    Dataset(technologies, Map(CategoryFor(lex, flat), InOrder(LexLeq, ElementsIn(flat))),
            Map(RelationFor(lex, flat), InOrder(PairLeq, PairsIn(flat))))
  }

  /** The dataset depends on the rows only as a multiset: any rearrangement of the input gives the same one. */
  lemma RowOrderIrrelevant(lex: Lexicon, a: seq<Row>, b: seq<Row>)
    requires multiset(a) == multiset(b)
    ensures Deduplicated(lex, a) == Deduplicated(lex, b)
  {
    TechnologiesInvariant(lex, a, b);
  }

  // ---------------------------------------------------------------- the algorithm

  type Groups = map<string, seq<Row>>

  /** The grouping dict. */
  ghost predicate AreGroups(lex: Lexicon, rows: seq<Row>, grouped: Groups) {
    && grouped.Keys == KeysOf(lex, rows)
    && (forall key :: key in grouped ==> grouped[key] == RowsOf(lex, rows, key))
  }

  lemma NextGroup(lex: Lexicon, rows: seq<Row>, grouped: Groups, r: Row)
    requires AreGroups(lex, rows, grouped)
    ensures var key := lex.norm(r.example);
            AreGroups(lex, rows + [r],
                      if key == "" then grouped
                         else grouped[key := (if key in grouped then grouped[key] else []) + [r]])
  {
    var key := lex.norm(r.example);
    assert (rows + [r])[..|rows|] == rows;
    assert KeysOf(lex, rows + [r]) == KeysOf(lex, rows) + if key == "" then {} else {key};
    forall k | k != ""
      ensures RowsOf(lex, rows + [r], k) == RowsOf(lex, rows, k) + if key == k then [r] else []
    {
      assert HasKey(lex, k)(r) == (key == k);
    }
    if key !in grouped && key != "" {
      NoRowsOfKey(lex, rows, key);
    }
  }

  lemma {:induction false} NoRowsOfKey(lex: Lexicon, rows: seq<Row>, key: string)
    requires forall r :: r in rows ==> lex.norm(r.example) != key
    ensures RowsOf(lex, rows, key) == []
  {
    if rows != [] {
      NoRowsOfKey(lex, rows[..|rows| - 1], key);
      assert rows[|rows| - 1] in rows;
    }
  }

  method GroupRows(lex: Lexicon, rows: seq<Row>) returns (grouped: Groups)
    ensures AreGroups(lex, rows, grouped)
  {
    grouped := map[];
    for i := 0 to |rows|
      invariant AreGroups(lex, rows[..i], grouped)
    {
      var row := rows[i];
      NextGroup(lex, rows[..i], grouped, row);
      assert rows[..i + 1] == rows[..i] + [row];
      var key := lex.norm(row.example);
      if key == "" {
        continue;
      }
      grouped := grouped[key := (if key in grouped then grouped[key] else []) + [row]];
    }
    assert rows[..|rows|] == rows;
  }

  /** The two dicts filled from the associations. */
  ghost predicate AreCollected(flat: seq<Given>, names: map<string, set<string>>,
                               relations: map<(string, string), seq<Association>>) {
    && names.Keys == ElementsIn(flat) && (forall e :: e in names ==> names[e] == NamesIn(flat, e))
    && relations.Keys == PairsIn(flat) && (forall p :: p in relations ==> relations[p] == ForPair(flat, p))
  }

  function NameAdded(names: map<string, set<string>>, a: Association): map<string, set<string>> {
    if a.elementId == "" then names
    else names[a.elementId := (if a.elementId in names then names[a.elementId] else {}) + {a.elementName}]
  }

  function RelationAdded(relations: map<(string, string), seq<Association>>,
                         x: Given): map<(string, string), seq<Association>> {
    if x.1.elementId == "" then relations
    else
      var pair := (x.0, x.1.elementId);
      relations[pair := (if pair in relations then relations[pair] else []) + [x.1]]
  }

  lemma NextCollected(flat: seq<Given>, names: map<string, set<string>>,
                      relations: map<(string, string), seq<Association>>, x: Given)
    requires AreCollected(flat, names, relations)
    ensures AreCollected(flat + [x], NameAdded(names, x.1), RelationAdded(relations, x))
  {
    NextNames(flat, names, x);
    NextRelations(flat, relations, x);
  }

  lemma NextNames(flat: seq<Given>, names: map<string, set<string>>, x: Given)
    requires names.Keys == ElementsIn(flat) && forall e :: e in names ==> names[e] == NamesIn(flat, e)
    ensures var names' := NameAdded(names, x.1);
            names'.Keys == ElementsIn(flat + [x]) && forall e :: e in names' ==> names'[e] == NamesIn(flat + [x], e)
  {
    var e := x.1.elementId;
    assert ElementsIn(flat + [x]) == ElementsIn(flat) + if e == "" then {} else {e};
    forall k
      ensures NamesIn(flat + [x], k) == NamesIn(flat, k) + if k == e then {x.1.elementName} else {}
    {
    }
    if e !in names && e != "" {
      assert NamesIn(flat, e) == {};
    }
  }

  lemma NextRelations(flat: seq<Given>, relations: map<(string, string), seq<Association>>, x: Given)
    requires relations.Keys == PairsIn(flat) && forall p :: p in relations ==> relations[p] == ForPair(flat, p)
    ensures var relations' := RelationAdded(relations, x);
            relations'.Keys == PairsIn(flat + [x]) && forall p :: p in relations' ==>
                relations'[p] == ForPair(flat + [x], p)
  {
    var pair := (x.0, x.1.elementId);
    assert (flat + [x])[..|flat|] == flat;
    assert PairsIn(flat + [x]) == PairsIn(flat) + if pair.1 == "" then {} else {pair};
    if pair !in relations && pair.1 != "" {
      NoneForPair(flat, pair);
    }
  }

  lemma {:induction false} NoneForPair(flat: seq<Given>, pair: (string, string))
    requires pair !in PairsIn(flat) && pair.1 != ""
    ensures ForPair(flat, pair) == []
  {
    if flat != [] {
      var front, last := flat[..|flat| - 1], flat[|flat| - 1];
      assert flat == front + [last];
      assert last in flat;
      NoneForPair(front, pair);
    }
  }

  method SortedStrings(s: set<string>) returns (list: seq<string>)
    ensures list == InOrder(LexLeq, s) && forall x :: x in list <==> x in s
  {
    StringOrder();
    list := SortedSet(LexLeq, s);
    InOrderMembers(LexLeq, s);
  }

  method SortedNames(lex: Lexicon, s: set<string>) returns (list: seq<string>)
    ensures list == InOrder(NameLeq(lex), s)
  {
    NameOrder(lex);
    list := SortedSet(NameLeq(lex), s);
  }

  method SortedPairs(s: set<(string, string)>) returns (list: seq<(string, string)>)
    ensures list == InOrder(PairLeq, s) && forall x :: x in list <==> x in s
  {
    PairOrder();
    list := SortedSet(PairLeq, s);
    InOrderMembers(PairLeq, s);
  }

  /** The technology of one group. */
  method BuildTechnology(lex: Lexicon, key: string, group: seq<Row>) returns (technology: Technology)
    ensures technology == TechnologyOf(lex, key, group)
  {
    var names := SortedNames(lex, Examples(group));
    var associations := AssociationsOf(lex, group);
    technology := Technology(lex.technologyId(key), if names == [] then "" else names[0], key, names, associations,
                             AnyHot(associations), AnyInDemand(associations));
  }

  lemma NextTagged(flat: seq<Given>, externalId: string, associations: seq<Association>, j: nat)
    requires j < |associations|
    ensures flat + Tag(externalId, associations[..j + 1])
            == flat + Tag(externalId, associations[..j]) + [(externalId, associations[j])]
  {
    assert associations[..j + 1][..j] == associations[..j];
  }

  method CollectAssociations(technology: Technology, ghost flat: seq<Given>, names: map<string, set<string>>,
                             relations: map<(string, string), seq<Association>>)
    returns (names': map<string, set<string>>, relations': map<(string, string), seq<Association>>)
    requires AreCollected(flat, names, relations)
    ensures AreCollected(flat + Tag(technology.externalId, technology.associations), names', relations')
  {
    names', relations' := names, relations;
    var associations := technology.associations;
    assert flat + [] == flat;
    for j := 0 to |associations|
      invariant AreCollected(flat + Tag(technology.externalId, associations[..j]), names', relations')
    {
      var x := (technology.externalId, associations[j]);
      NextTagged(flat, technology.externalId, associations, j);
      NextCollected(flat + Tag(technology.externalId, associations[..j]), names', relations', x);
      names', relations' := NameAdded(names', x.1), RelationAdded(relations', x);
    }
    assert associations[..|associations|] == associations;
  }

  /** The loop over the sorted keys. */
  method BuildTechnologies(lex: Lexicon, ghost rows: seq<Row>, grouped: Groups, keys: seq<string>)
    returns (technologies: seq<Technology>, names: map<string, set<string>>,
             relations: map<(string, string), seq<Association>>)
    requires forall key :: key in keys ==> key in grouped && grouped[key] == RowsOf(lex, rows, key)
    ensures technologies == Map(TechnologyFor(lex, rows), keys)
    ensures AreCollected(Flat(technologies), names, relations)
  {
    technologies, names, relations := [], map[], map[];
    ghost var f := TechnologyFor(lex, rows);
    for i := 0 to |keys|
      invariant technologies == Map(f, keys[..i])
      invariant AreCollected(Flat(technologies), names, relations)
    {
      var key := keys[i];
      MapNext(f, keys, i);
      var technology := BuildTechnology(lex, key, grouped[key]);
      TechnologyForAt(lex, rows, key, grouped[key]);
      names, relations := CollectAssociations(technology, Flat(technologies), names, relations);
      FlatNext(technologies, technology);
      technologies := technologies + [technology];
    }
    Whole(keys);
  }

  lemma TechnologyForAt(lex: Lexicon, rows: seq<Row>, key: string, group: seq<Row>)
    requires group == RowsOf(lex, rows, key)
    ensures TechnologyFor(lex, rows)(key) == TechnologyOf(lex, key, group)
  {
  }

  lemma FlatNext(technologies: seq<Technology>, last: Technology)
    ensures Flat(technologies + [last]) == Flat(technologies) + Tag(last.externalId, last.associations)
  {
    assert (technologies + [last])[..|technologies|] == technologies;
  }

  method DeduplicateSoftwareSkills(lex: Lexicon, rows: seq<Row>) returns (dataset: Dataset)
    ensures dataset == Deduplicated(lex, rows)
  {
    var grouped := GroupRows(lex, rows);
    var keys := SortedStrings(grouped.Keys);
    var technologies, names, relationRows := BuildTechnologies(lex, rows, grouped, keys);
    var categories := BuildCategories(lex, Flat(technologies), names);
    var relations := BuildRelations(lex, Flat(technologies), relationRows);
    dataset := Dataset(technologies, categories, relations);
  }

  method BuildCategory(lex: Lexicon, element: string, names: set<string>) returns (category: Category)
    ensures category == CategoryOf(lex, element, names)
  {
    var ordered := SortedNames(lex, names - {""});
    var plain := SortedStrings(names - {""});
    category := Category(lex.categoryId(element), if ordered == [] then element else ordered[0], element, plain);
  }

  method BuildCategories(lex: Lexicon, ghost flat: seq<Given>, names: map<string, set<string>>)
    returns (categories: seq<Category>)
    requires names.Keys == ElementsIn(flat) && forall e :: e in names ==> names[e] == NamesIn(flat, e)
    ensures categories == Map(CategoryFor(lex, flat), InOrder(LexLeq, ElementsIn(flat)))
  {
    var elements := SortedStrings(names.Keys);
    ghost var f := CategoryFor(lex, flat);
    categories := [];
    for i := 0 to |elements|
      invariant categories == Map(f, elements[..i])
    {
      MapNext(f, elements, i);
      assert elements[i] in names;
      var category := BuildCategory(lex, elements[i], names[elements[i]]);
      assert category == f(elements[i]);
      categories := categories + [category];
    }
    Whole(elements);
  }

  method BuildRelations(lex: Lexicon, ghost flat: seq<Given>, rows: map<(string, string), seq<Association>>)
    returns (relations: seq<Relation>)
    requires rows.Keys == PairsIn(flat) && forall p :: p in rows ==> rows[p] == ForPair(flat, p)
    ensures relations == Map(RelationFor(lex, flat), InOrder(PairLeq, PairsIn(flat)))
  {
    var pairs := SortedPairs(rows.Keys);
    ghost var f := RelationFor(lex, flat);
    relations := [];
    for i := 0 to |pairs|
      invariant relations == Map(f, pairs[..i])
    {
      MapNext(f, pairs, i);
      assert pairs[i] in rows;
      var relation := RelationOf(lex, pairs[i], rows[pairs[i]]);
      assert relation == f(pairs[i]);
      relations := relations + [relation];
    }
    Whole(pairs);
  }

  // ---------------------------------------------------------------- every row once

  function Sizes(lex: Lexicon, rows: seq<Row>, keys: seq<string>): nat {
    if keys == [] then 0 else Sizes(lex, rows, keys[..|keys| - 1]) + |RowsOf(lex, rows, keys[|keys| - 1])|
  }

  function Keyed(lex: Lexicon, rows: seq<Row>): nat {
    if rows == [] then 0 else Keyed(lex, rows[..|rows| - 1]) + if lex.norm(rows[|rows| - 1].example) == "" then 0 else 1
  }

  /** A further row adds one to the group of its key and nothing to the others. */
  lemma {:induction false} OneMoreRow(lex: Lexicon, rows: seq<Row>, r: Row, keys: seq<string>)
    requires NoDuplicates(keys)
    ensures Sizes(lex, rows + [r], keys) == Sizes(lex, rows, keys) + if lex.norm(r.example) in keys then 1 else 0
  {
    if keys != [] {
      var front, last := keys[..|keys| - 1], keys[|keys| - 1];
      assert keys == front + [last];
      OneMoreRow(lex, rows, r, front);
      assert (rows + [r])[..|rows|] == rows;
      assert HasKey(lex, last)(r) == (lex.norm(r.example) == last);
    }
  }

  lemma {:induction false} SizesCoverRows(lex: Lexicon, rows: seq<Row>, keys: seq<string>)
    requires NoDuplicates(keys) && "" !in keys && KeysOf(lex, rows) <= (set k | k in keys)
    ensures Sizes(lex, rows, keys) == Keyed(lex, rows)
  {
    if rows == [] {
      NoSizes(lex, keys);
    } else {
      var front, last := rows[..|rows| - 1], rows[|rows| - 1];
      assert rows == front + [last];
      assert last in rows;
      assert lex.norm(last.example) != "" ==>
               lex.norm(last.example) in KeysOf(lex, rows) && lex.norm(last.example) in keys;
      assert KeysOf(lex, front) <= KeysOf(lex, rows);
      SizesCoverRows(lex, front, keys);
      OneMoreRow(lex, front, last, keys);
    }
  }

  lemma {:induction false} NoSizes(lex: Lexicon, keys: seq<string>)
    ensures Sizes(lex, [], keys) == 0
  {
    if keys != [] {
      NoSizes(lex, keys[..|keys| - 1]);
    }
  }

  function AssociationCount(technologies: seq<Technology>): nat {
    if technologies == [] then 0
    else AssociationCount(technologies[..|technologies| - 1]) + |technologies[|technologies| - 1].associations|
  }

  /** What a row says about its technology. */
  function RowAssociation(lex: Lexicon): Row -> Association {
    (r: Row) => ToAssociation(lex, r.fields)
  }

  lemma {:induction false} AssociateMaps(lex: Lexicon, rows: seq<Row>)
    ensures Associate(lex, Map(RowFields, rows)) == Map(RowAssociation(lex), rows)
  {
    if rows != [] {
      AssociateMaps(lex, rows[1..]);
      assert Map(RowFields, rows) == [rows[0].fields] + Map(RowFields, rows[1..]);
    }
  }

  /** A technology's associations are those of its rows, each as often as the rows give it. */
  lemma GroupKept(lex: Lexicon, key: string, group: seq<Row>)
    ensures multiset(TechnologyOf(lex, key, group).associations) == multiset(Map(RowAssociation(lex), group))
  {
    var sorted := Sort(ByKey(FieldsLeq, RowFields), group);
    SortMultiset(ByKey(FieldsLeq, RowFields), group);
    AssociateMaps(lex, sorted);
    MapMultiset(RowAssociation(lex), sorted, group);
  }

  lemma {:induction false} CountsMatch(lex: Lexicon, rows: seq<Row>, f: string -> Technology, keys: seq<string>)
    requires forall key :: |f(key).associations| == |RowsOf(lex, rows, key)|
    ensures AssociationCount(Map(f, keys)) == Sizes(lex, rows, keys)
  {
    if keys != [] {
      var n := |keys| - 1;
      CountsMatch(lex, rows, f, keys[..n]);
      MapNext(f, keys, n);
      assert keys[..n + 1] == keys;
      CountOneMore(Map(f, keys[..n]), f(keys[n]));
    }
  }

  lemma CountOneMore(technologies: seq<Technology>, last: Technology)
    ensures AssociationCount(technologies + [last]) == AssociationCount(technologies) + |last.associations|
  {
    assert (technologies + [last])[..|technologies|] == technologies;
  }

  ghost predicate KeysDistinct(technologies: seq<Technology>) {
    forall i, j :: 0 <= i < j < |technologies| ==> technologies[i].key != technologies[j].key
  }

  lemma DistinctKeys(f: string -> Technology, keys: seq<string>)
    requires NoDuplicates(keys) && forall key :: f(key).key == key
    ensures KeysDistinct(Map(f, keys))
  {
    MapFacts(f, keys);
  }

  lemma TechnologyForFacts(lex: Lexicon, rows: seq<Row>, key: string)
    ensures var t := TechnologyFor(lex, rows)(key);
            && t.key == key && |t.associations| == |RowsOf(lex, rows, key)|
            && multiset(t.associations) == multiset(Map(RowAssociation(lex), RowsOf(lex, rows, key)))
  {
    var group := RowsOf(lex, rows, key);
    GroupKept(lex, key, group);
    MapFacts(RowAssociation(lex), group);
    assert |multiset(TechnologyOf(lex, key, group).associations)| == |multiset(Map(RowAssociation(lex), group))|;
  }

  lemma CountsAndKeys(lex: Lexicon, rows: seq<Row>, f: string -> Technology, keys: seq<string>)
    requires NoDuplicates(keys) && (forall k :: k in keys <==> k in KeysOf(lex, rows)) && f == TechnologyFor(lex, rows)
    ensures AssociationCount(Map(f, keys)) == Keyed(lex, rows) && KeysDistinct(Map(f, keys))
  {
    forall key
      ensures f(key).key == key && |f(key).associations| == |RowsOf(lex, rows, key)|
    {
      TechnologyForFacts(lex, rows, key);
    }
    CountsMatch(lex, rows, f, keys);
    SizesCoverRows(lex, rows, keys);
    DistinctKeys(f, keys);
  }

  ghost predicate HasTechnologyOf(technologies: seq<Technology>, key: string) {
    exists t :: t in technologies && t.key == key
  }

  lemma TechnologyOfKey(lex: Lexicon, rows: seq<Row>, keys: seq<string>, key: string)
    ensures HasTechnologyOf(Map(TechnologyFor(lex, rows), keys), key) <==> key in keys
  {
    var f := TechnologyFor(lex, rows);
    if key in keys {
      MapMembers(f, keys, f(key));
    }
    if t: Technology :| t in Map(f, keys) && t.key == key {
      MapMembers(f, keys, t);
    }
  }

  lemma TechnologyOfRows(lex: Lexicon, rows: seq<Row>, keys: seq<string>, t: Technology)
    requires t in Map(TechnologyFor(lex, rows), keys)
    ensures multiset(t.associations) == multiset(Map(RowAssociation(lex), RowsOf(lex, rows, t.key)))
  {
    MapMembers(TechnologyFor(lex, rows), keys, t);
    var key :| key in keys && TechnologyFor(lex, rows)(key) == t;
    TechnologyForFacts(lex, rows, key);
  }

  /** There is one technology for each non-empty key of the rows, with one association for each row of its key. */
  lemma OneTechnologyPerKey(lex: Lexicon, rows: seq<Row>)
    ensures KeysDistinct(Technologies(lex, rows))
    ensures forall key :: HasTechnologyOf(Technologies(lex, rows), key) <==> key in KeysOf(lex, rows)
    ensures AssociationCount(Technologies(lex, rows)) == Keyed(lex, rows)
  {
    var keys := InOrder(LexLeq, KeysOf(lex, rows));
    InOrderMembers(LexLeq, KeysOf(lex, rows));
    CountsAndKeys(lex, rows, TechnologyFor(lex, rows), keys);
    forall key
      ensures HasTechnologyOf(Map(TechnologyFor(lex, rows), keys), key) <==> key in keys
    {
      TechnologyOfKey(lex, rows, keys, key);
    }
  }

  /** Nothing lost, nothing made up: a technology's associations are, as a multiset, those of the rows of its key. */
  lemma EachRowInOneTechnology(lex: Lexicon, rows: seq<Row>, t: Technology)
    requires t in Technologies(lex, rows)
    ensures multiset(t.associations) == multiset(Map(RowAssociation(lex), RowsOf(lex, rows, t.key)))
  {
    TechnologyOfRows(lex, rows, InOrder(LexLeq, KeysOf(lex, rows)), t);
  }

  // ---------------------------------------------------------------- relations join concepts of the dataset

  lemma {:induction false} TaggedBy(externalId: string, associations: seq<Association>)
    ensures forall x :: x in Tag(externalId, associations) ==> x.0 == externalId && x.1 in associations
  {
    if associations != [] {
      TaggedBy(externalId, associations[..|associations| - 1]);
      assert associations == associations[..|associations| - 1] + [associations[|associations| - 1]];
    }
  }

  lemma {:induction false} FlatComesFromTechnologies(technologies: seq<Technology>)
    ensures forall x :: x in Flat(technologies) ==>
              exists t :: t in technologies && t.externalId == x.0 && x.1 in t.associations
  {
    if technologies != [] {
      var front, last := technologies[..|technologies| - 1], technologies[|technologies| - 1];
      assert technologies == front + [last];
      FlatComesFromTechnologies(front);
      TaggedBy(last.externalId, last.associations);
      forall x | x in Flat(technologies)
        ensures exists t :: t in technologies && t.externalId == x.0 && x.1 in t.associations
      {
        if x in Flat(front) {
          var t :| t in front && t.externalId == x.0 && x.1 in t.associations;
          assert t in technologies;
        } else {
          assert last in technologies;
        }
      }
    }
  }

  ghost predicate HasTechnology(technologies: seq<Technology>, externalId: string) {
    exists t :: t in technologies && t.externalId == externalId
  }

  ghost predicate HasCategory(categories: seq<Category>, externalId: string) {
    exists c :: c in categories && c.externalId == externalId
  }

  lemma PairEnds(lex: Lexicon, technologies: seq<Technology>, elements: seq<string>, p: (string, string))
    requires p in PairsIn(Flat(technologies)) && forall e :: e in elements <==> e in ElementsIn(Flat(technologies))
    ensures HasTechnology(technologies, p.0)
    ensures HasCategory(Map(CategoryFor(lex, Flat(technologies)), elements), lex.categoryId(p.1))
  {
    var flat := Flat(technologies);
    var x :| x in flat && x.1.elementId != "" && p == (x.0, x.1.elementId);
    FlatComesFromTechnologies(technologies);
    var f := CategoryFor(lex, flat);
    MapMembers(f, elements, f(p.1));
    assert f(p.1).externalId == lex.categoryId(p.1);
  }

  /** Both ends of every relation are concepts of the dataset. */
  lemma RelationsJoinConcepts(lex: Lexicon, rows: seq<Row>, r: Relation)
    requires r in Deduplicated(lex, rows).relations
    ensures HasTechnology(Deduplicated(lex, rows).technologies, r.subject)
    ensures HasCategory(Deduplicated(lex, rows).categories, r.obj)
  {
    var technologies := Technologies(lex, rows);
    var flat := Flat(technologies);
    var pairs, elements := InOrder(PairLeq, PairsIn(flat)), InOrder(LexLeq, ElementsIn(flat));
    InOrderMembers(PairLeq, PairsIn(flat));
    InOrderMembers(LexLeq, ElementsIn(flat));
    var f := RelationFor(lex, flat);
    MapMembers(f, pairs, r);
    var p :| p in pairs && f(p) == r;
    PairEnds(lex, technologies, elements, p);
  }
}
