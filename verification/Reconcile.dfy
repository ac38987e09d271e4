/** O*NET technologies onto canonical concepts (app/skills/importers/reconcile.py): what is decided, and on what. */
module ReconcileDecision {
  import opened Wrappers

  type Id = nat
  type SourceId = nat

  /** normalize_label, canonical_technology_name, technology_aliases and canonical_concept_id. */
  datatype Lexicon = Lexicon(norm: string -> string, canonical: string -> string, variants: string -> seq<string>,
                             conceptId: string -> Id)

  datatype Source = Source(id: SourceId, externalId: string, name: string, rawNames: seq<string>)

  datatype Policy = Policy(trgmMargin: real, highConfidence: real, threshold: real, semanticMargin: real)

  datatype Decision = Decided(concept: Id, score: real) | Undecided(ambiguous: bool)

  /** A pair of a concept and one of its normalized names. */
  type Entry = (Id, string)

  /** Who owns a key. */
  function OwnersIn(entries: set<Entry>, key: string): set<Id> {
    set e | e in entries && e.1 == key && key != "" :: e.0
  }

  // ---------------------------------------------------------------- the names of a source

  /** The candidates with a new non-empty key, in order. */
  function DedupByKey(lex: Lexicon, candidates: seq<string>): seq<string> {
    if candidates == [] then []
    else
      var earlier := DedupByKey(lex, candidates[..|candidates| - 1]);
      var last := candidates[|candidates| - 1];
      if lex.norm(last) == "" || lex.norm(last) in Keys(lex, earlier) then earlier else earlier + [last]
  }

  function Keys(lex: Lexicon, names: seq<string>): set<string> {
    set n | n in names :: lex.norm(n)
  }

  lemma {:induction false} DedupKeys(lex: Lexicon, candidates: seq<string>)
    ensures Keys(lex, DedupByKey(lex, candidates)) == Keys(lex, candidates) - {""}
  {
    if candidates != [] {
      var front, last := candidates[..|candidates| - 1], candidates[|candidates| - 1];
      DedupKeys(lex, front);
      assert candidates == front + [last];
      assert Keys(lex, candidates) == Keys(lex, front) + {lex.norm(last)};
      var earlier := DedupByKey(lex, front);
      assert Keys(lex, earlier + [last]) == Keys(lex, earlier) + {lex.norm(last)};
    }
  }

  /** The first of the names with each key. */
  function FirstNames(lex: Lexicon, names: seq<string>): map<string, string> {
    if names == [] then map[]
    else
      var earlier, last := FirstNames(lex, names[..|names| - 1]), names[|names| - 1];
      if lex.norm(last) in earlier then earlier else earlier[lex.norm(last) := last]
  }

  ghost predicate IsFirst(lex: Lexicon, names: seq<string>, key: string, name: string) {
    exists i :: 0 <= i < |names| && names[i] == name && lex.norm(name) == key
                && forall j :: 0 <= j < i ==> lex.norm(names[j]) != key
  }

  lemma FirstStays(lex: Lexicon, front: seq<string>, last: string, key: string, name: string)
    requires IsFirst(lex, front, key, name)
    ensures IsFirst(lex, front + [last], key, name)
  {
    var i :| 0 <= i < |front| && front[i] == name && lex.norm(name) == key
             && forall j :: 0 <= j < i ==> lex.norm(front[j]) != key;
    assert (front + [last])[i] == name;
  }

  lemma NewIsFirst(lex: Lexicon, front: seq<string>, last: string)
    requires lex.norm(last) !in Keys(lex, front)
    ensures IsFirst(lex, front + [last], lex.norm(last), last)
  {
    assert forall j :: 0 <= j < |front| ==> front[j] in front;
    assert (front + [last])[|front|] == last;
  }

  lemma {:induction false} FirstNamesFacts(lex: Lexicon, names: seq<string>)
    ensures FirstNames(lex, names).Keys == Keys(lex, names)
    ensures forall key :: key in FirstNames(lex, names) ==> IsFirst(lex, names, key, FirstNames(lex, names)[key])
  {
    if names != [] {
      var front, last := names[..|names| - 1], names[|names| - 1];
      FirstNamesFacts(lex, front);
      assert names == front + [last];
      OneMoreKey(lex, front, last);
      forall key | key in FirstNames(lex, front)
        ensures IsFirst(lex, names, key, FirstNames(lex, front)[key])
      {
        FirstStays(lex, front, last, key, FirstNames(lex, front)[key]);
      }
      if lex.norm(last) !in FirstNames(lex, front) {
        NewIsFirst(lex, front, last);
      }
    }
  }

  lemma OneMoreName(lex: Lexicon, names: seq<string>, name: string)
    ensures FirstNames(lex, names + [name])
            == if lex.norm(name) in FirstNames(lex, names) then FirstNames(lex, names)
               else FirstNames(lex, names)[lex.norm(name) := name]
  {
    assert (names + [name])[..|names|] == names;
  }

  function Variants(lex: Lexicon, names: seq<string>): seq<string> {
    if names == [] then [] else Variants(lex, names[..|names| - 1]) + lex.variants(names[|names| - 1])
  }

  function Names(lex: Lexicon, s: Source): seq<string> {
    var stated := [s.name] + s.rawNames;
    DedupByKey(lex, stated + Variants(lex, stated))
  }

  method SourceNames(lex: Lexicon, s: Source) returns (names: seq<string>)
    ensures names == Names(lex, s)
  {
    var stated := [s.name] + s.rawNames;
    var candidates := stated;
    for i := 0 to |stated|
      invariant candidates == stated + Variants(lex, stated[..i])
    {
      assert stated[..i + 1][..i] == stated[..i];
      candidates := candidates + lex.variants(stated[i]);
    }
    assert stated[..|stated|] == stated;
    names := FirstOfEachKey(lex, candidates);
  }

  lemma OneMoreKey(lex: Lexicon, names: seq<string>, name: string)
    ensures Keys(lex, names + [name]) == Keys(lex, names) + {lex.norm(name)}
  {
  }

  /** The loop that keeps a candidate when its key is new. */
  method FirstOfEachKey(lex: Lexicon, candidates: seq<string>) returns (names: seq<string>)
    ensures names == DedupByKey(lex, candidates)
  {
    names := [];
    var seen: set<string> := {};
    for i := 0 to |candidates|
      invariant names == DedupByKey(lex, candidates[..i])
      invariant seen == Keys(lex, names)
    {
      assert candidates[..i + 1][..i] == candidates[..i];
      var key := lex.norm(candidates[i]);
      if key != "" && key !in seen {
        OneMoreKey(lex, names, candidates[i]);
        names, seen := names + [candidates[i]], seen + {key};
      }
    }
    assert candidates[..|candidates|] == candidates;
  }

  /** A name with a key is among the names under that key. */
  lemma PrimaryIsAName(lex: Lexicon, s: Source)
    requires lex.norm(s.name) != ""
    ensures lex.norm(s.name) in Keys(lex, Names(lex, s))
  {
    var candidates := [s.name] + s.rawNames + Variants(lex, [s.name] + s.rawNames);
    DedupKeys(lex, candidates);
    assert s.name in candidates;
  }

  // ---------------------------------------------------------------- the two scored phases

  /** The rows of a query limited to two, best first. */
  type Ranked = seq<(Id, real)>

  /** _trgm_candidate: a close runner-up is ambiguous. */
  function TrgmDecision(p: Policy, names: seq<string>, rows: Ranked): Decision {
    if names == [] || rows == [] then Undecided(false)
    else if |rows| > 1 && rows[0].1 - rows[1].1 < p.trgmMargin then Undecided(true)
    else Decided(rows[0].0, rows[0].1)
  }

  /** _semantic_candidate: the two-tier rule; a good score without margin is ambiguous. */
  function SemanticDecision(p: Policy, embedded: bool, rows: Ranked): Decision {
    if !embedded || rows == [] then Undecided(false)
    else if rows[0].1 >= p.highConfidence then Decided(rows[0].0, rows[0].1)
    else if rows[0].1 >= p.threshold && (|rows| == 1 || rows[0].1 - rows[1].1 >= p.semanticMargin)
      then Decided(rows[0].0, rows[0].1)
    else Undecided(rows[0].1 >= p.threshold)
  }

  // ---------------------------------------------------------------- what one source comes to

  /**
   What is known before the first source: which sources are mapped, who owns each name and each label.
   The rows the two scored queries will return are arbitrary.
   */
  datatype Snapshot = Snapshot(lex: Lexicon, policy: Policy, existing: set<SourceId>, names: set<Entry>,
                               labels: set<Entry>, trgm: SourceId -> Ranked, embedded: bool,
                               semantic: SourceId -> Ranked)

  datatype Kind = Existing | NormalizedLabel | Alias | Trgm | Semantic | Created | Unresolved

  function PrimaryOwners(w: Snapshot, s: Source): set<Id> {
    OwnersIn(w.names, w.lex.norm(s.name))
  }

  function OwnersOfNames(lex: Lexicon, entries: set<Entry>, names: seq<string>): set<Id> {
    set n, id | n in names && id in OwnersIn(entries, lex.norm(n)) :: id
  }

  function NameOwners(w: Snapshot, s: Source): set<Id> {
    OwnersOfNames(w.lex, w.labels, Names(w.lex, s))
  }

  function TrgmOf(w: Snapshot, s: Source): Decision {
    TrgmDecision(w.policy, Names(w.lex, s), w.trgm(s.id))
  }

  function SemanticOf(w: Snapshot, s: Source): Decision {
    SemanticDecision(w.policy, w.embedded, w.semantic(s.id))
  }

  function OwnersAmbiguous(w: Snapshot, s: Source): bool {
    |PrimaryOwners(w, s) + NameOwners(w, s)| > 1
  }

  /** The four phases, for one source: it depends on the snapshot alone, not on the other sources. */
  function KindOf(w: Snapshot, s: Source): Kind {
    if s.id in w.existing then Existing
    else if |PrimaryOwners(w, s)| == 1 then NormalizedLabel
    else if |NameOwners(w, s)| == 1 then Alias
    else if TrgmOf(w, s).Decided? then Trgm
    else if SemanticOf(w, s).Decided? then Semantic
    else if OwnersAmbiguous(w, s) || TrgmOf(w, s).ambiguous || SemanticOf(w, s).ambiguous then Unresolved
    else Created
  }

  ghost function Only(ids: set<Id>): (id: Id)
    requires |ids| == 1
    ensures ids == {id}
  {
    var id :| id in ids;
    assert |ids - {id}| == 0;
    id
  }

  /** The concept a source is mapped to. */
  ghost function TargetOf(w: Snapshot, s: Source): Id {
    match KindOf(w, s)
    case NormalizedLabel => Only(PrimaryOwners(w, s))
    case Alias => Only(NameOwners(w, s))
    case Trgm => TrgmOf(w, s).concept
    case Semantic => SemanticOf(w, s).concept
    case _ => w.lex.conceptId(s.externalId)
  }

  ghost function ConfidenceOf(w: Snapshot, s: Source): real {
    match KindOf(w, s)
    case Trgm => TrgmOf(w, s).score
    case Semantic => SemanticOf(w, s).score
    case _ => 1.0
  }

  /** The names the canonical table owns are labels too. */
  ghost predicate Sound(w: Snapshot) {
    w.names <= w.labels
  }

  lemma PrimaryAmongNames(w: Snapshot, s: Source)
    requires Sound(w)
    ensures PrimaryOwners(w, s) <= NameOwners(w, s)
  {
    var key := w.lex.norm(s.name);
    forall id | id in PrimaryOwners(w, s)
      ensures id in NameOwners(w, s)
    {
      PrimaryIsAName(w.lex, s);
      var n :| n in Names(w.lex, s) && w.lex.norm(n) == key;
      assert id in OwnersIn(w.labels, w.lex.norm(n));
    }
  }

  /**
   A concept is created for a source exactly when none of its names had an owner and neither score
   decided or wavered.
   */
  lemma CreatedIffNothingKnown(w: Snapshot, s: Source)
    requires Sound(w)
    ensures KindOf(w, s) == Created <==>
              && s.id !in w.existing && NameOwners(w, s) == {}
              && TrgmOf(w, s) == Undecided(false) && SemanticOf(w, s) == Undecided(false)
  {
    PrimaryAmongNames(w, s);
    var owners := NameOwners(w, s);
    assert PrimaryOwners(w, s) + owners == owners;
    assert owners == {} ==> PrimaryOwners(w, s) == {};
    assert |owners| == 0 <==> owners == {};
  }

  /** A source whose names have two owners or more is never settled by creating a concept. */
  lemma ContestedNamesNeverCreate(w: Snapshot, s: Source, a: Id, b: Id)
    requires Sound(w) && a in NameOwners(w, s) && b in NameOwners(w, s) && a != b
    ensures KindOf(w, s) != Created && KindOf(w, s) != Alias
  {
    CreatedIffNothingKnown(w, s);
    assert {a, b} <= NameOwners(w, s);
    assert |NameOwners(w, s)| == 1 ==> NameOwners(w, s) == {Only(NameOwners(w, s))};
  }

  // ---------------------------------------------------------------- the plan, and counting by it

  /**
   What a source comes to, with the doubts left after the labels and after the trigram phase, the names
   its concept is offered by key, and for a concept that is founded the key of its canonical name.
   */
  datatype Verdict =
    Verdict(kind: Kind, target: Id, confidence: real, doubted: bool, stillDoubted: bool, offered: map<string, string>,
            founded: Option<string>)

  type Plan = Source -> Verdict

  ghost function VerdictOf(w: Snapshot, s: Source): Verdict {
    Verdict(KindOf(w, s), TargetOf(w, s), ConfidenceOf(w, s), OwnersAmbiguous(w, s),
            OwnersAmbiguous(w, s) || TrgmOf(w, s) == Undecided(true), OfferedNames(w, s),
            if KindOf(w, s) == Created then Some(w.lex.norm(w.lex.canonical(s.name))) else None)
  }

  /** A new concept is offered the variants of its name, an existing one all names of the source. */
  function OfferedNames(w: Snapshot, s: Source): map<string, string> {
    FirstNames(w.lex, if KindOf(w, s) == Created then w.lex.variants(s.name) else Names(w.lex, s))
  }

  ghost predicate Plans(w: Snapshot, plan: Plan) {
    forall s :: plan(s) == VerdictOf(w, s)
  }

  type Counts = map<Kind, nat>

  const NO_COUNTS: Counts :=
    map[Existing := 0, NormalizedLabel := 0, Alias := 0, Trgm := 0, Semantic := 0, Created := 0, Unresolved := 0]

  function CountKind(plan: Plan, sources: seq<Source>, kind: Kind): nat {
    if sources == [] then 0
    else CountKind(plan, sources[..|sources| - 1], kind) + (if plan(sources[|sources| - 1]).kind == kind then 1 else 0)
  }

  function Select(plan: Plan, sources: seq<Source>, kinds: set<Kind>): seq<Source> {
    if sources == [] then []
    else
      var earlier := Select(plan, sources[..|sources| - 1], kinds);
      var last := sources[|sources| - 1];
      if plan(last).kind in kinds then earlier + [last] else earlier
  }

  lemma {:induction false} SelectKeepsCount(plan: Plan, sources: seq<Source>, kinds: set<Kind>, kind: Kind)
    requires kind in kinds
    ensures CountKind(plan, Select(plan, sources, kinds), kind) == CountKind(plan, sources, kind)
  {
    if sources != [] {
      var front, last := sources[..|sources| - 1], sources[|sources| - 1];
      SelectKeepsCount(plan, front, kinds, kind);
      if plan(last).kind in kinds {
        assert (Select(plan, front, kinds) + [last])[..|Select(plan, front, kinds)|] == Select(plan, front, kinds);
      }
    }
  }

  lemma {:induction false} SelectMembers(plan: Plan, sources: seq<Source>, kinds: set<Kind>)
    ensures forall s :: s in Select(plan, sources, kinds) <==> s in sources && plan(s).kind in kinds
  {
    if sources != [] {
      SelectMembers(plan, sources[..|sources| - 1], kinds);
      assert sources == sources[..|sources| - 1] + [sources[|sources| - 1]];
    }
  }

  lemma {:induction false} SelectTwice(plan: Plan, sources: seq<Source>, outer: set<Kind>, inner: set<Kind>)
    requires inner <= outer
    ensures Select(plan, Select(plan, sources, outer), inner) == Select(plan, sources, inner)
  {
    if sources != [] {
      var front, last := sources[..|sources| - 1], sources[|sources| - 1];
      SelectTwice(plan, front, outer, inner);
      if plan(last).kind in outer {
        assert (Select(plan, front, outer) + [last])[..|Select(plan, front, outer)|] == Select(plan, front, outer);
      }
    }
  }

  datatype Result = Result(existing: nat, normalizedLabel: nat, alias: nat, trgm: nat, semantic: nat, created: nat,
                           unresolved: nat)

  function Total(r: Result): nat {
    r.existing + r.normalizedLabel + r.alias + r.trgm + r.semantic + r.created + r.unresolved
  }

  /** The sources of each kind, counted. */
  function Counted(plan: Plan, sources: seq<Source>): Result {
    Result(CountKind(plan, sources, Existing), CountKind(plan, sources, NormalizedLabel),
           CountKind(plan, sources, Alias),
           CountKind(plan, sources, Trgm), CountKind(plan, sources, Semantic), CountKind(plan, sources, Created),
           CountKind(plan, sources, Unresolved))
  }

  /** The seven counters cover every source once. */
  lemma {:induction false} CountersCoverSources(plan: Plan, sources: seq<Source>)
    ensures Total(Counted(plan, sources)) == |sources|
  {
    if sources != [] {
      CountersCoverSources(plan, sources[..|sources| - 1]);
    }
  }
}

/** The run: tables, the in-memory owner index kept beside them, and the four phases. */
module Reconcile {
  import opened ReconcileDecision
  import opened Wrappers
  import ConceptGraph

  datatype ConceptRow = ConceptRow(name: string, normalized: string, active: bool)

  datatype AliasKind = Preferred | Curated | Alt | Derived

  datatype AliasRow = AliasRow(alias: string, kind: AliasKind)

  datatype MappingRow = MappingRow(exact: bool, confidence: real, how: Kind)

  type Concepts = map<Id, ConceptRow>
  type Aliases = map<Entry, AliasRow>
  type Mappings = map<(SourceId, Id), MappingRow>
  type OwnerIndex = map<string, set<Id>>

  function Owners(index: OwnerIndex, key: string): set<Id> {
    if key in index then index[key] else {}
  }

  /** The index holds the owners of every key of these entries. */
  ghost predicate IsOwnerIndex(entries: set<Entry>, index: OwnerIndex) {
    forall key :: Owners(index, key) == OwnersIn(entries, key)
  }

  function AddOwner(index: OwnerIndex, key: string, id: Id): OwnerIndex {
    index[key := Owners(index, key) + {id}]
  }

  lemma OwnersWithOneMore(entries: set<Entry>, id: Id, key: string, other: string)
    ensures OwnersIn(entries + {(id, key)}, other)
            == OwnersIn(entries, other) + if other == key && key != "" then {id} else {}
  {
    var more := entries + {(id, key)};
    forall x
      ensures x in OwnersIn(more, other) <==> x in OwnersIn(entries, other) || (other == key && key != "" && x == id)
    {
      if x in OwnersIn(entries, other) {
        assert (x, other) in more;
      }
      if other == key && key != "" && x == id {
        assert (id, key) in more;
      }
    }
  }

  lemma IndexWithOneMore(entries: set<Entry>, index: OwnerIndex, id: Id, key: string)
    requires IsOwnerIndex(entries, index) && key != ""
    ensures IsOwnerIndex(entries + {(id, key)}, AddOwner(index, key, id))
  {
    forall other
      ensures Owners(AddOwner(index, key, id), other) == OwnersIn(entries + {(id, key)}, other)
    {
      OwnersWithOneMore(entries, id, key, other);
    }
  }

  method BuildOwnerIndex(entries: set<Entry>) returns (index: OwnerIndex)
    ensures IsOwnerIndex(entries, index)
  {
    index := map[];
    var rest := entries;
    ghost var done: set<Entry> := {};
    while rest != {}
      invariant done + rest == entries
      invariant IsOwnerIndex(done, index)
      decreases rest
    {
      var e :| e in rest;
      if e.1 != "" {
        IndexWithOneMore(done, index, e.0, e.1);
        index := AddOwner(index, e.1, e.0);
      } else {
        assert forall key :: OwnersIn(done + {e}, key) == OwnersIn(done, key) by {
          forall key
            ensures OwnersIn(done + {e}, key) == OwnersIn(done, key)
          {
            OwnersWithOneMore(done, e.0, e.1, key);
            assert done + {e} == done + {(e.0, e.1)};
          }
        }
      }
      assert done + {e} == done + {(e.0, e.1)};
      rest, done := rest - {e}, done + {e};
    }
    assert done == entries;
  }

  /** Merging copies the owner sets, so later changes to either index do not show. */
  method MergeOwnerIndexes(a: OwnerIndex, b: OwnerIndex, ghost ea: set<Entry>, ghost eb: set<Entry>)
    returns (merged: OwnerIndex)
    requires IsOwnerIndex(ea, a) && IsOwnerIndex(eb, b)
    ensures IsOwnerIndex(ea + eb, merged)
  {
    merged := a;
    var rest := b.Keys;
    assert MergedSoFar(a, b, merged, rest) by {
      forall key
        ensures key !in rest ==> Owners(a, key) == Owners(a, key) + Owners(b, key)
      {
        assert key !in rest ==> Owners(b, key) == {};
      }
    }
    while rest != {}
      invariant rest <= b.Keys && MergedSoFar(a, b, merged, rest)
      decreases rest
    {
      var key :| key in rest;
      MergeStep(a, b, merged, rest, key);
      merged := merged[key := Owners(merged, key) + b[key]];
      rest := rest - {key};
    }
    MergedIsIndex(a, b, ea, eb, merged);
  }

  ghost predicate MergedSoFar(a: OwnerIndex, b: OwnerIndex, merged: OwnerIndex, rest: set<string>) {
    forall key :: Owners(merged, key) == if key in rest then Owners(a, key) else Owners(a, key) + Owners(b, key)
  }

  lemma MergeStep(a: OwnerIndex, b: OwnerIndex, merged: OwnerIndex, rest: set<string>, key: string)
    requires rest <= b.Keys && key in rest && MergedSoFar(a, b, merged, rest)
    ensures MergedSoFar(a, b, merged[key := Owners(merged, key) + b[key]], rest - {key})
  {
    var merged' := merged[key := Owners(merged, key) + b[key]];
    forall other
      ensures Owners(merged', other) == if other in rest - {key} then Owners(a, other)
              else Owners(a, other) + Owners(b, other)
    {
      assert Owners(merged, other) == if other in rest then Owners(a, other) else Owners(a, other) + Owners(b, other);
    }
  }

  lemma MergedIsIndex(a: OwnerIndex, b: OwnerIndex, ea: set<Entry>, eb: set<Entry>, merged: OwnerIndex)
    requires IsOwnerIndex(ea, a) && IsOwnerIndex(eb, b) && MergedSoFar(a, b, merged, {})
    ensures IsOwnerIndex(ea + eb, merged)
  {
    forall key
      ensures Owners(merged, key) == OwnersIn(ea + eb, key)
    {
      assert OwnersIn(ea + eb, key) == OwnersIn(ea, key) + OwnersIn(eb, key);
    }
  }

  /** Owners of any of the names. */
  method OwnersFor(lex: Lexicon, index: OwnerIndex, names: seq<string>, ghost entries: set<Entry>)
    returns (owners: set<Id>)
    requires IsOwnerIndex(entries, index)
    ensures owners == OwnersOfNames(lex, entries, names)
  {
    owners := {};
    for i := 0 to |names|
      invariant owners == OwnersOfNames(lex, entries, names[..i])
    {
      assert names[..i + 1] == names[..i] + [names[i]];
      owners := owners + Owners(index, lex.norm(names[i]));
    }
    assert names[..|names|] == names;
  }

  function ActiveNames(concepts: Concepts): set<Entry> {
    set id | id in concepts && concepts[id].active && concepts[id].normalized != "" :: (id, concepts[id].normalized)
  }

  // ---------------------------------------------------------------- what a step does to the tables

  /** The alias table after offering these names to a concept: a key goes in unless somebody else owns it. */
  ghost predicate Offered(lex: Lexicon, before: Aliases, after: Aliases, id: Id, names: seq<string>) {
    && (forall k :: k in before ==> k in after && after[k] == before[k])
    && (forall k: Entry :: k in after && k !in before <==>
          k.0 == id && k.1 != "" && k.1 in FirstNames(lex, names) && k !in before
          && OwnersIn(before.Keys, k.1) <= {id})
    && (forall k :: k in after && k !in before ==>
          k.1 in FirstNames(lex, names) && after[k].alias == FirstNames(lex, names)[k.1])
  }

  /** Rows only come in, and never give a key a second owner. */
  ghost predicate NoSecondOwner(before: Aliases, after: Aliases) {
    && (forall k :: k in before ==> k in after && after[k] == before[k])
    && (forall k, j :: k in after && k !in before && j in after && j.1 == k.1 ==> j.0 == k.0)
  }

  lemma RowsStayWellFormed(lex: Lexicon, concepts: Concepts, before: Aliases, after: Aliases, id: Id,
                           names: seq<string>, mappings: Mappings, sid: SourceId, row: MappingRow)
    requires id in concepts && Offered(lex, before, after, id, names)
    requires (forall k :: k in before ==> k.0 in concepts) && (forall k :: k in mappings ==> k.1 in concepts)
    ensures forall k :: k in after ==> k.0 in concepts
    ensures forall k :: k in AfterMapping(mappings, sid, id, row) ==> k.1 in concepts
  {
  }

  lemma OfferKeepsOneOwner(lex: Lexicon, start: Aliases, before: Aliases, after: Aliases, id: Id, names: seq<string>)
    requires NoSecondOwner(start, before) && Offered(lex, before, after, id, names)
    ensures NoSecondOwner(start, after)
  {
    forall k, j | k in after && k !in start && j in after && j.1 == k.1
      ensures j.0 == k.0
    {
      assert k in before && j !in before ==> k.0 in OwnersIn(before.Keys, j.1);
      assert j in before && k !in before ==> j.0 in OwnersIn(before.Keys, k.1);
    }
  }

  function AfterMapping(m: Mappings, sid: SourceId, c: Id, row: MappingRow): Mappings {
    (map k | k in m && !(k.0 == sid && k.1 != c) :: m[k])[(sid, c) := row]
  }

  function RowOf(v: Verdict): MappingRow {
    MappingRow(v.confidence == 1.0, v.confidence, v.kind)
  }

  /** The sources settled so far, and what each came to. */
  type Goals = map<SourceId, Verdict>

  /** Every settled source has one mapping, to its target; other sources keep what they had. */
  ghost predicate MappingsAre(before: Mappings, after: Mappings, goals: Goals) {
    forall k: (SourceId, Id) ::
      if k.0 in goals then (k in after <==> k.1 == goals[k.0].target) && (k in after ==> after[k] == RowOf(goals[k.0]))
      else (k in after <==> k in before) && (k in after ==> after[k] == before[k])
  }

  /** Every key offered by a settled source has an owner, and every new alias is one that was offered. */
  ghost predicate AliasesAre(before: Aliases, after: Aliases, goals: Goals) {
    && (forall sid, key :: sid in goals && key in goals[sid].offered && key != "" ==> OwnersIn(after.Keys, key) != {})
    && (forall k: Entry :: k in after && k !in before ==> WasOffered(goals, k, after[k]))
  }

  /** A founded concept's alias of its canonical key is preferred and its others derived; the rest are alternatives. */
  function KindFor(v: Verdict, key: string): AliasKind {
    match v.founded
    case None => Alt
    case Some(canonical) => if key == canonical then Preferred else Derived
  }

  /** Some settled source offered its concept this row. */
  ghost predicate WasOffered(goals: Goals, k: Entry, row: AliasRow) {
    exists sid :: sid in goals && goals[sid].target == k.0 && k.1 in goals[sid].offered
                  && row == AliasRow(goals[sid].offered[k.1], KindFor(goals[sid], k.1))
  }

  /** After an offer every offered key has an owner. */
  lemma OfferedIsOwned(lex: Lexicon, before: Aliases, after: Aliases, id: Id, names: seq<string>, key: string)
    requires Offered(lex, before, after, id, names) && key in FirstNames(lex, names) && key != ""
    ensures OwnersIn(after.Keys, key) != {}
  {
    if OwnersIn(before.Keys, key) <= {id} {
      var k: Entry := (id, key);
      assert k in after.Keys;
      assert id in OwnersIn(after.Keys, key);
    } else {
      var x :| x in OwnersIn(before.Keys, key) && x != id;
      assert (x, key) in after.Keys;
      assert x in OwnersIn(after.Keys, key);
    }
  }

  lemma OwnedStaysOwned(before: Aliases, after: Aliases, key: string)
    requires forall k :: k in before ==> k in after
    ensures OwnersIn(before.Keys, key) != {} ==> OwnersIn(after.Keys, key) != {}
  {
    if x :| x in OwnersIn(before.Keys, key) {
      assert (x, key) in after.Keys;
      assert x in OwnersIn(after.Keys, key);
    }
  }

  lemma OneMoreOffer(lex: Lexicon, start: Aliases, before: Aliases, after: Aliases, goals: Goals, sid: SourceId,
                     v: Verdict, names: seq<string>)
    requires AliasesAre(start, before, goals) && sid !in goals && v.offered == FirstNames(lex, names)
    requires Offered(lex, before, after, v.target, names)
    requires forall k :: k in after && k !in before ==> after[k].kind == KindFor(v, k.1)
    ensures AliasesAre(start, after, goals[sid := v])
  {
    var more := goals[sid := v];
    forall t, key | t in more && key in more[t].offered && key != ""
      ensures OwnersIn(after.Keys, key) != {}
    {
      if t == sid {
        OfferedIsOwned(lex, before, after, v.target, names, key);
      } else {
        OwnedStaysOwned(before, after, key);
      }
    }
    forall k: Entry | k in after && k !in start
      ensures WasOffered(more, k, after[k])
    {
      if k in before {
        var t :| t in goals && goals[t].target == k.0 && k.1 in goals[t].offered
                 && before[k] == AliasRow(goals[t].offered[k.1], KindFor(goals[t], k.1));
        assert t in more && more[t] == goals[t];
      } else {
        assert sid in more && more[sid] == v;
      }
    }
  }

  lemma OneMoreMapping(start: Mappings, before: Mappings, goals: Goals, sid: SourceId, v: Verdict)
    requires MappingsAre(start, before, goals) && sid !in goals
    ensures MappingsAre(start, AfterMapping(before, sid, v.target, RowOf(v)), goals[sid := v])
  {
  }

  // ---------------------------------------------------------------- the run

  datatype Pending = Pending(source: Source, ambiguous: bool)

  const LATER: set<Kind> := {Trgm, Semantic, Created, Unresolved}
  const AFTER_TRGM: set<Kind> := {Semantic, Created, Unresolved}
  const BY_LABELS: set<Kind> := {NormalizedLabel, Alias}

  /** The verdicts of the sources of these kinds. */
  ghost function GoalsOf(plan: Plan, sources: seq<Source>, kinds: set<Kind>): Goals {
    if sources == [] then map[]
    else
      var earlier := GoalsOf(plan, sources[..|sources| - 1], kinds);
      var last := sources[|sources| - 1];
      if plan(last).kind in kinds then earlier[last.id := plan(last)] else earlier
  }

  lemma LastIsNew(sources: seq<Source>, s: Source)
    requires DistinctIds(sources) && sources != [] && s in sources[..|sources| - 1]
    ensures s.id != sources[|sources| - 1].id
  {
    var i :| 0 <= i < |sources| - 1 && sources[i] == s;
  }

  /** A source of these kinds is among the goals, with its verdict. */
  lemma {:induction false} GoalAt(plan: Plan, sources: seq<Source>, kinds: set<Kind>, s: Source)
    requires DistinctIds(sources) && s in sources && plan(s).kind in kinds
    ensures s.id in GoalsOf(plan, sources, kinds) && GoalsOf(plan, sources, kinds)[s.id] == plan(s)
  {
    var front := sources[..|sources| - 1];
    if s in front {
      GoalAt(plan, front, kinds, s);
      LastIsNew(sources, s);
    }
  }

  /** Every goal is that of a source of these kinds. */
  lemma {:induction false} GoalSource(plan: Plan, sources: seq<Source>, kinds: set<Kind>, sid: SourceId)
    returns (s: Source)
    requires sid in GoalsOf(plan, sources, kinds)
    ensures s in sources && s.id == sid && plan(s).kind in kinds && GoalsOf(plan, sources, kinds)[sid] == plan(s)
  {
    s := sources[|sources| - 1];
    if s.id != sid || plan(s).kind !in kinds {
      s := GoalSource(plan, sources[..|sources| - 1], kinds, sid);
    }
  }

  lemma GoalsMembers(plan: Plan, sources: seq<Source>, kinds: set<Kind>)
    requires DistinctIds(sources)
    ensures forall s :: s in sources && plan(s).kind in kinds ==>
              s.id in GoalsOf(plan, sources, kinds) && GoalsOf(plan, sources, kinds)[s.id] == plan(s)
    ensures forall sid :: sid in GoalsOf(plan, sources, kinds) ==>
              exists s :: s in sources && s.id == sid && plan(s).kind in kinds
  {
    forall s | s in sources && plan(s).kind in kinds
      ensures s.id in GoalsOf(plan, sources, kinds) && GoalsOf(plan, sources, kinds)[s.id] == plan(s)
    {
      GoalAt(plan, sources, kinds, s);
    }
    forall sid | sid in GoalsOf(plan, sources, kinds)
      ensures exists s :: s in sources && s.id == sid && plan(s).kind in kinds
    {
      var s := GoalSource(plan, sources, kinds, sid);
    }
  }


  ghost predicate DistinctIds(sources: seq<Source>) {
    forall i, j :: 0 <= i < j < |sources| ==> sources[i].id != sources[j].id
  }

  lemma SameIdSameSource(sources: seq<Source>, s: Source, t: Source)
    requires DistinctIds(sources) && s in sources && t in sources && s.id == t.id
    ensures s == t
  {
    var i :| 0 <= i < |sources| && sources[i] == s;
    var j :| 0 <= j < |sources| && sources[j] == t;
  }

  lemma {:induction false} SelectDistinct(plan: Plan, sources: seq<Source>, kinds: set<Kind>)
    requires DistinctIds(sources)
    ensures DistinctIds(Select(plan, sources, kinds))
  {
    if sources != [] {
      var front, last := sources[..|sources| - 1], sources[|sources| - 1];
      SelectDistinct(plan, front, kinds);
      SelectMembers(plan, front, kinds);
      var earlier := Select(plan, front, kinds);
      forall i | 0 <= i < |earlier|
        ensures earlier[i].id != last.id
      {
        assert earlier[i] in earlier;
        var j :| 0 <= j < |front| && front[j] == earlier[i];
        assert sources[j] == front[j];
      }
    }
  }

  function Doubt(v: Verdict, afterTrgm: bool): bool {
    if afterTrgm then v.stillDoubted else v.doubted
  }

  /** The pending list: each source with the doubt the phases so far left. */
  function Flag(plan: Plan, list: seq<Source>, afterTrgm: bool): seq<Pending> {
    seq(|list|, i requires 0 <= i < |list| => Pending(list[i], Doubt(plan(list[i]), afterTrgm)))
  }

  /** The run works with the snapshot it took. */
  ghost predicate Took(w: Snapshot, lex: Lexicon, existing: set<SourceId>, nameIndex: OwnerIndex,
                       labelIndex: OwnerIndex) {
    && w.lex == lex && w.existing == existing
    && IsOwnerIndex(w.names, nameIndex) && IsOwnerIndex(w.labels, labelIndex)
  }

  /** A ranking query returns rows of concepts. */
  ghost predicate RowsIn(concepts: Concepts, query: SourceId -> Ranked) {
    forall sid, i :: 0 <= i < |query(sid)| ==> query(sid)[i].0 in concepts
  }

  /** Concepts the snapshot can decide on exist. */
  ghost predicate TargetsExist(w: Snapshot, concepts: Concepts) {
    && (forall e :: e in w.names + w.labels ==> e.0 in concepts)
    && RowsIn(concepts, w.trgm) && RowsIn(concepts, w.semantic)
  }

  lemma OffersNames(w: Snapshot, s: Source)
    requires KindOf(w, s) != Created
    ensures VerdictOf(w, s).offered == FirstNames(w.lex, Names(w.lex, s)) && VerdictOf(w, s).founded.None?
  {
  }

  lemma OwnersExist(w: Snapshot, concepts: Concepts, s: Source, id: Id)
    requires TargetsExist(w, concepts)
    requires id in PrimaryOwners(w, s) || id in NameOwners(w, s)
    ensures id in concepts
  {
    if id in PrimaryOwners(w, s) {
      assert (id, w.lex.norm(s.name)) in w.names + w.labels;
    } else {
      var n :| n in Names(w.lex, s) && id in OwnersIn(w.labels, w.lex.norm(n));
      assert (id, w.lex.norm(n)) in w.names + w.labels;
    }
  }

  /** What the first pass finds: mapped already, a concept, or nothing yet. */
  datatype Choice = Mapped | To(concept: Id, how: Kind) | Later(ambiguous: bool)

  predicate ByLabels(v: Verdict, choice: Choice) {
    match choice
    case Mapped => v.kind == Existing
    case To(concept, how) => how in BY_LABELS && v.kind == how && v.target == concept && v.confidence == 1.0
    case Later(ambiguous) => v.kind in LATER && ambiguous == v.doubted
  }

  /** What the first pass must find, given the owners. */
  ghost predicate LabelFacts(v: Verdict, mapped: bool, primary: set<Id>, all: set<Id>) {
    if mapped then v.kind == Existing
    else if |primary| == 1 then v.kind == NormalizedLabel && primary == {v.target} && v.confidence == 1.0
    else if |all| == 1 then v.kind == Alias && all == {v.target} && v.confidence == 1.0
    else v.kind in LATER && v.doubted == (|primary + all| > 1)
  }

  lemma VerdictHasLabelFacts(w: Snapshot, s: Source)
    ensures LabelFacts(VerdictOf(w, s), s.id in w.existing, PrimaryOwners(w, s), NameOwners(w, s))
  {
  }

  method ChooseByLabels(lex: Lexicon, s: Source, names: seq<string>, existing: set<SourceId>, nameIndex: OwnerIndex,
                        labelIndex: OwnerIndex, ghost labels: set<Entry>, ghost v: Verdict) returns (choice: Choice)
    requires IsOwnerIndex(labels, labelIndex)
    requires LabelFacts(v, s.id in existing, Owners(nameIndex, lex.norm(s.name)), OwnersOfNames(lex, labels, names))
    ensures ByLabels(v, choice)
    ensures choice.To? ==>
              choice.concept in Owners(nameIndex, lex.norm(s.name))
                || choice.concept in OwnersOfNames(lex, labels, names)
  {
    if s.id in existing {
      return Mapped;
    }
    var primaryOwners := Owners(nameIndex, lex.norm(s.name));
    if |primaryOwners| == 1 {
      var concept :| concept in primaryOwners;
      return To(concept, NormalizedLabel);
    }
    var aliasOwners := OwnersFor(lex, labelIndex, names, labels);
    if |aliasOwners| == 1 {
      var concept :| concept in aliasOwners;
      return To(concept, Alias);
    }
    choice := Later(|primaryOwners + aliasOwners| > 1);
  }

  /** A concept found by its labels exists, and the verdict offers it the source's names. */
  lemma LabelSettles(w: Snapshot, plan: Plan, concepts: Concepts, s: Source, choice: Choice)
    requires plan(s) == VerdictOf(w, s) && TargetsExist(w, concepts) && choice.To? && ByLabels(plan(s), choice)
    requires choice.concept in PrimaryOwners(w, s) || choice.concept in NameOwners(w, s)
    ensures choice.concept in concepts
    ensures plan(s).offered == FirstNames(w.lex, Names(w.lex, s)) && plan(s).founded.None?
  {
    OwnersExist(w, concepts, s, choice.concept);
    OffersNames(w, s);
  }

  datatype Tables = Tables(concepts: Concepts, aliases: Aliases, mappings: Mappings, index: OwnerIndex,
                           keys: set<Entry>)

  /** Foreign keys. */
  ghost predicate RowsExist(concepts: Concepts, aliases: Aliases, mappings: Mappings) {
    && (forall k :: k in aliases ==> k.0 in concepts)
    && (forall k :: k in mappings ==> k.1 in concepts)
  }

  /** The tables of a run that started from these aliases and mappings and settled these sources. */
  ghost function HasProgressed(aliases0: Aliases, mappings0: Mappings, goals: Goals): Tables -> bool {
    (t: Tables) =>
      && RowsExist(t.concepts, t.aliases, t.mappings)
      && t.keys == t.aliases.Keys && IsOwnerIndex(t.aliases.Keys, t.index)
      && NoSecondOwner(aliases0, t.aliases) && AliasesAre(aliases0, t.aliases, goals)
      && MappingsAre(mappings0, t.mappings, goals)
  }

  /** The alias table, key set and owner index while these names are being added to a concept. */
  ghost function Adding(lex: Lexicon, before: Aliases, concept: Id, kindOf: string -> AliasKind, names: seq<string>)
    : (Aliases, set<Entry>, OwnerIndex) -> bool
  {
    (all: Aliases, keys: set<Entry>, index: OwnerIndex) =>
      && Offered(lex, before, all, concept, names)
      && (forall k :: k in all && k !in before ==> all[k].kind == kindOf(k.1))
      && keys == all.Keys && IsOwnerIndex(all.Keys, index)
  }

  lemma NothingAdded(lex: Lexicon, before: Aliases, concept: Id, kindOf: string -> AliasKind, keys: set<Entry>,
                     index: OwnerIndex)
    requires keys == before.Keys && IsOwnerIndex(before.Keys, index)
    ensures Adding(lex, before, concept, kindOf, [])(before + map[], keys, index)
  {
    assert before + map[] == before;
  }

  lemma AddingSkips(lex: Lexicon, before: Aliases, concept: Id, kindOf: string -> AliasKind, names: seq<string>,
                    name: string, all: Aliases, keys: set<Entry>, index: OwnerIndex)
    requires Adding(lex, before, concept, kindOf, names)(all, keys, index)
    requires var owners := Owners(index, lex.norm(name));
             lex.norm(name) == "" || (concept, lex.norm(name)) in keys || (owners != {} && owners != {concept})
    ensures Adding(lex, before, concept, kindOf, names + [name])(all, keys, index)
  {
    OfferRefused(lex, before, all, concept, names, name);
  }

  lemma AddingTakes(lex: Lexicon, before: Aliases, concept: Id, kindOf: string -> AliasKind, names: seq<string>,
                    name: string, all: Aliases, keys: set<Entry>, index: OwnerIndex)
    requires Adding(lex, before, concept, kindOf, names)(all, keys, index)
    requires var owners := Owners(index, lex.norm(name));
             lex.norm(name) != "" && (concept, lex.norm(name)) !in keys && (owners == {} || owners == {concept})
    ensures var key := lex.norm(name);
            Adding(lex, before, concept, kindOf, names + [name])
              (all[(concept, key) := AliasRow(name, kindOf(key))], keys + {(concept, key)},
               AddOwner(index, key, concept))
  {
    var key := lex.norm(name);
    OfferTaken(lex, before, all, concept, names, name, AliasRow(name, kindOf(key)));
    IndexWithOneMore(all.Keys, index, concept, key);
    assert all[(concept, key) := AliasRow(name, kindOf(key))].Keys == all.Keys + {(concept, key)};
  }

  lemma RowJoins(before: Aliases, rows: Aliases, k: Entry, row: AliasRow)
    ensures before + rows[k := row] == (before + rows)[k := row]
  {
  }

  /** The tables of the session, and the owner index and key set kept in memory beside the alias table. */
  class SkillGraph {
    var concepts: Concepts
    var aliases: Aliases
    var mappings: Mappings
    var aliasIndex: OwnerIndex
    var aliasKeys: set<Entry>

    /** Foreign keys hold. */
    ghost predicate WellFormed()
      reads this
    {
      RowsExist(concepts, aliases, mappings)
    }

    /** The index and the key set are those of the alias table. */
    ghost predicate IndexAgrees()
      reads this
    {
      aliasKeys == aliases.Keys && IsOwnerIndex(aliases.Keys, aliasIndex)
    }

    /** Where the run stands when these sources have been settled. */
    ghost predicate Progress(aliases0: Aliases, mappings0: Mappings, goals: Goals)
      reads this
    {
      HasProgressed(aliases0, mappings0, goals)(Tables(concepts, aliases, mappings, aliasIndex, aliasKeys))
    }

    /** replace_source_mapping: other mappings of the source go, this one is written. */
    method MapSource(sid: SourceId, concept: Id, how: Kind, confidence: real)
      modifies this`mappings
      ensures mappings == AfterMapping(old(mappings), sid, concept, MappingRow(confidence == 1.0, confidence, how))
    {
      mappings := map k | k in mappings && !(k.0 == sid && k.1 != concept) :: mappings[k];
      mappings := mappings[(sid, concept) := MappingRow(confidence == 1.0, confidence, how)];
    }

    /** _add_source_aliases and _add_new_concept_aliases: they differ in the names and in the alias types only. */
    method AddAliases(lex: Lexicon, concept: Id, names: seq<string>, kindOf: string -> AliasKind)
      requires IndexAgrees()
      modifies this`aliases, this`aliasIndex, this`aliasKeys
      ensures IndexAgrees()
      ensures Offered(lex, old(aliases), aliases, concept, names)
      ensures forall k :: k in aliases && k !in old(aliases) ==> aliases[k].kind == kindOf(k.1)
    {
      var rows: Aliases := map[];
      NothingAdded(lex, aliases, concept, kindOf, aliasKeys, aliasIndex);
      for i := 0 to |names|
        invariant unchanged(`aliases)
        invariant Adding(lex, aliases, concept, kindOf, names[..i])(aliases + rows, aliasKeys, aliasIndex)
      {
        var normalized := lex.norm(names[i]);
        assert names[..i + 1] == names[..i] + [names[i]];
        if normalized == "" || (concept, normalized) in aliasKeys {
          AddingSkips(lex, aliases, concept, kindOf, names[..i], names[i], aliases + rows, aliasKeys, aliasIndex);
          continue;
        }
        var owners := Owners(aliasIndex, normalized);
        if owners != {} && owners != {concept} {
          AddingSkips(lex, aliases, concept, kindOf, names[..i], names[i], aliases + rows, aliasKeys, aliasIndex);
          continue;
        }
        AddingTakes(lex, aliases, concept, kindOf, names[..i], names[i], aliases + rows, aliasKeys, aliasIndex);
        aliasIndex := AddOwner(aliasIndex, normalized, concept);
        aliasKeys := aliasKeys + {(concept, normalized)};
        RowJoins(aliases, rows, (concept, normalized), AliasRow(names[i], kindOf(normalized)));
        rows := rows[(concept, normalized) := AliasRow(names[i], kindOf(normalized))];
      }
      assert names[..|names|] == names;
      aliases := aliases + rows;
    }

    /** One source settled: its mapping and its aliases. */
    method Settle(ghost plan: Plan, ghost aliases0: Aliases, ghost mappings0: Mappings, ghost goals: Goals,
                  lex: Lexicon, s: Source, concept: Id, how: Kind, confidence: real, names: seq<string>,
                  kindOf: string -> AliasKind)
      requires Progress(aliases0, mappings0, goals) && concept in concepts
      requires plan(s).kind == how && plan(s).target == concept && plan(s).confidence == confidence
      requires plan(s).offered == FirstNames(lex, names) && s.id !in goals
      requires forall key :: kindOf(key) == KindFor(plan(s), key)
      modifies this`aliases, this`mappings, this`aliasIndex, this`aliasKeys
      ensures Progress(aliases0, mappings0, goals[s.id := plan(s)])
      ensures Offered(lex, old(aliases), aliases, concept, names)
      ensures forall k :: k in aliases && k !in old(aliases) ==> aliases[k].kind == kindOf(k.1)
    {
      OneMoreMapping(mappings0, mappings, goals, s.id, plan(s));
      MapSource(s.id, concept, how, confidence);
      AddAliases(lex, concept, names, kindOf);
      OfferKeepsOneOwner(lex, aliases0, old(aliases), aliases, concept, names);
      OneMoreOffer(lex, aliases0, old(aliases), aliases, goals, s.id, plan(s), names);
      RowsStayWellFormed(lex, concepts, old(aliases), aliases, concept, names, old(mappings), s.id, RowOf(plan(s)));
    }

    /** The first pass on one source. */
    method TryLabels(ghost w: Snapshot, ghost plan: Plan, ghost aliases0: Aliases, ghost mappings0: Mappings,
                     ghost goals: Goals, lex: Lexicon, s: Source, existing: set<SourceId>, nameIndex: OwnerIndex,
                     labelIndex: OwnerIndex)
      returns (choice: Choice)
      requires Took(w, lex, existing, nameIndex, labelIndex) && plan(s) == VerdictOf(w, s) && TargetsExist(w, concepts)
      requires Progress(aliases0, mappings0, goals) && s.id !in goals
      modifies this`aliases, this`mappings, this`aliasIndex, this`aliasKeys
      ensures ByLabels(plan(s), choice)
      ensures Progress(aliases0, mappings0, if choice.To? then goals[s.id := plan(s)] else goals)
    {
      var names := SourceNames(lex, s);
      VerdictHasLabelFacts(w, s);
      choice := ChooseByLabels(lex, s, names, existing, nameIndex, labelIndex, w.labels, plan(s));
      if choice.To? {
        LabelSettles(w, plan, concepts, s, choice);
        Settle(plan, aliases0, mappings0, goals, lex, s, choice.concept, choice.how, 1.0, names, key => Alt);
      }
    }

    method LabelPhase(ghost w: Snapshot, ghost plan: Plan, ghost aliases0: Aliases, ghost mappings0: Mappings,
                      lex: Lexicon, sources: seq<Source>, existing: set<SourceId>, nameIndex: OwnerIndex,
                      labelIndex: OwnerIndex)
      returns (counts: Counts, pending: seq<Pending>)
      requires Took(w, lex, existing, nameIndex, labelIndex) && Plans(w, plan)
      requires DistinctIds(sources) && TargetsExist(w, concepts)
      requires Progress(aliases0, mappings0, map[])
      modifies this`aliases, this`mappings, this`aliasIndex, this`aliasKeys
      ensures Progress(aliases0, mappings0, GoalsOf(plan, sources, BY_LABELS))
      ensures Tallies(plan, counts, sources, FIRST, [], {})
      ensures pending == Flag(plan, Select(plan, sources, LATER), false)
    {
      counts, pending := NO_COUNTS, [];
      StartsAtZero(plan, FIRST);
      for i := 0 to |sources|
        invariant Progress(aliases0, mappings0, GoalsOf(plan, sources[..i], BY_LABELS))
        invariant Tallies(plan, counts, sources[..i], FIRST, [], {})
        invariant pending == Flag(plan, Select(plan, sources[..i], LATER), false)
      {
        counts, pending :=
          LabelStep(w, plan, aliases0, mappings0, sources, i, lex, existing, nameIndex, labelIndex, counts, pending);
      }
      assert sources[..|sources|] == sources;
    }

    method LabelStep(ghost w: Snapshot, ghost plan: Plan, ghost aliases0: Aliases, ghost mappings0: Mappings,
                     sources: seq<Source>, i: nat, lex: Lexicon, existing: set<SourceId>, nameIndex: OwnerIndex,
                     labelIndex: OwnerIndex, counts: Counts, pending: seq<Pending>)
      returns (counts': Counts, pending': seq<Pending>)
      requires i < |sources| && DistinctIds(sources)
      requires Took(w, lex, existing, nameIndex, labelIndex) && plan(sources[i]) == VerdictOf(w, sources[i])
               && TargetsExist(w, concepts)
      requires Progress(aliases0, mappings0, GoalsOf(plan, sources[..i], BY_LABELS))
      requires Tallies(plan, counts, sources[..i], FIRST, [], {})
               && pending == Flag(plan, Select(plan, sources[..i], LATER), false)
      modifies this`aliases, this`mappings, this`aliasIndex, this`aliasKeys
      ensures Progress(aliases0, mappings0, GoalsOf(plan, sources[..i + 1], BY_LABELS))
      ensures Tallies(plan, counts', sources[..i + 1], FIRST, [], {})
              && pending' == Flag(plan, Select(plan, sources[..i + 1], LATER), false)
    {
      ghost var goals := GoalsOf(plan, sources[..i], BY_LABELS);
      NotYet(plan, sources, i, BY_LABELS);
      var choice := TryLabels(w, plan, aliases0, mappings0, goals, lex, sources[i], existing, nameIndex, labelIndex);
      GoalsNext(plan, sources, i, choice);
      counts', pending' := Record(plan, counts, pending, sources, i, choice);
    }

    /** Second pass, one source: the trigram query. */
    method TryTrgm(ghost w: Snapshot, ghost plan: Plan, ghost aliases0: Aliases, ghost mappings0: Mappings,
                   ghost goals: Goals, lex: Lexicon, policy: Policy, s: Source, rows: Ranked)
      returns (decision: Decision)
      requires lex == w.lex && policy == w.policy && rows == w.trgm(s.id) && TargetsExist(w, concepts)
      requires plan(s) == VerdictOf(w, s) && plan(s).kind in LATER
      requires Progress(aliases0, mappings0, goals) && s.id !in goals
      modifies this`aliases, this`mappings, this`aliasIndex, this`aliasKeys
      ensures decision.Decided? <==> plan(s).kind == Trgm
      ensures decision.Undecided? ==> plan(s).stillDoubted == (plan(s).doubted || decision.ambiguous)
      ensures Progress(aliases0, mappings0, if decision.Decided? then goals[s.id := plan(s)] else goals)
    {
      var names := SourceNames(lex, s);
      decision := TrgmDecision(policy, names, rows);
      TrgmFacts(w, s);
      if decision.Decided? {
        assert rows[0] in rows;
        OffersNames(w, s);
        Settle(plan, aliases0, mappings0, goals, lex, s, decision.concept, Trgm, decision.score, names, key => Alt);
      }
    }

    method TrgmPhase(ghost w: Snapshot, ghost plan: Plan, ghost aliases0: Aliases, ghost mappings0: Mappings,
                     ghost sources: seq<Source>, lex: Lexicon, policy: Policy, pending: seq<Pending>, counts: Counts,
                     trgm: SourceId -> Ranked)
      returns (counts': Counts, left: seq<Pending>)
      requires lex == w.lex && policy == w.policy && trgm == w.trgm && Plans(w, plan) && TargetsExist(w, concepts)
      requires DistinctIds(sources) && pending == Flag(plan, Select(plan, sources, LATER), false)
      requires Progress(aliases0, mappings0, GoalsOf(plan, sources, BY_LABELS))
      requires Tallies(plan, counts, sources, FIRST, [], {})
      modifies this`aliases, this`mappings, this`aliasIndex, this`aliasKeys
      ensures Progress(aliases0, mappings0, GoalsOf(plan, sources, BEFORE_SEMANTIC))
      ensures Tallies(plan, counts', sources, FIRST_TWO, [], {})
      ensures left == Flag(plan, Select(plan, sources, AFTER_TRGM), true)
    {
      ghost var list := Select(plan, sources, LATER);
      SelectDistinct(plan, sources, LATER);
      counts', left := counts, [];
      NoGoalsYet(plan, GoalsOf(plan, sources, BY_LABELS), list, {Trgm});
      for j := 0 to |pending|
        invariant Progress(aliases0, mappings0, GoalsOf(plan, sources, BY_LABELS) + GoalsOf(plan, list[..j], {Trgm}))
        invariant Tallies(plan, counts', sources, FIRST, list[..j], {Trgm})
        invariant left == Flag(plan, Select(plan, list[..j], AFTER_TRGM), true)
      {
        counts', left := TrgmStep(w, plan, aliases0, mappings0, sources, list, j, lex, policy, pending[j],
                                  trgm(pending[j].source.id), counts', left);
      }
      assert list[..|list|] == list;
      TrgmJoins(plan, counts', sources);
    }

    method TrgmStep(ghost w: Snapshot, ghost plan: Plan, ghost aliases0: Aliases, ghost mappings0: Mappings,
                    ghost sources: seq<Source>, ghost list: seq<Source>, ghost j: nat, lex: Lexicon, policy: Policy,
                    p: Pending, rows: Ranked, counts: Counts, left: seq<Pending>)
      returns (counts': Counts, left': seq<Pending>)
      requires lex == w.lex && policy == w.policy && rows == w.trgm(p.source.id)
               && plan(p.source) == VerdictOf(w, p.source)
      requires TargetsExist(w, concepts)
      requires DistinctIds(sources) && list == Select(plan, sources, LATER) && DistinctIds(list)
      requires j < |list| && p == Pending(list[j], plan(list[j]).doubted)
      requires Progress(aliases0, mappings0, GoalsOf(plan, sources, BY_LABELS) + GoalsOf(plan, list[..j], {Trgm}))
      requires Tallies(plan, counts, sources, FIRST, list[..j], {Trgm})
               && left == Flag(plan, Select(plan, list[..j], AFTER_TRGM), true)
      modifies this`aliases, this`mappings, this`aliasIndex, this`aliasKeys
      ensures Progress(aliases0, mappings0, GoalsOf(plan, sources, BY_LABELS) + GoalsOf(plan, list[..j + 1], {Trgm}))
      ensures Tallies(plan, counts', sources, FIRST, list[..j + 1], {Trgm})
              && left' == Flag(plan, Select(plan, list[..j + 1], AFTER_TRGM), true)
    {
      ghost var base := GoalsOf(plan, sources, BY_LABELS);
      KindSets();
      NextInList(plan, sources, BY_LABELS, LATER, list, j, {Trgm});
      var decision :=
        TryTrgm(w, plan, aliases0, mappings0, base + GoalsOf(plan, list[..j], {Trgm}), lex, policy, p.source, rows);
      GoalsInList(plan, list, j, {Trgm}, base, decision.Decided?);
      counts', left' := RecordTrgm(plan, sources, list, j, counts, left, p, decision);
    }

    /** Third pass, one source: the vector query. */
    method TrySemantic(ghost w: Snapshot, ghost plan: Plan, ghost aliases0: Aliases, ghost mappings0: Mappings,
                       ghost goals: Goals, lex: Lexicon, policy: Policy, s: Source, embedded: bool, rows: Ranked)
      returns (decision: Decision)
      requires lex == w.lex && policy == w.policy && embedded == w.embedded && rows == w.semantic(s.id)
               && TargetsExist(w, concepts)
      requires plan(s) == VerdictOf(w, s) && plan(s).kind in AFTER_TRGM
      requires Progress(aliases0, mappings0, goals) && s.id !in goals
      modifies this`aliases, this`mappings, this`aliasIndex, this`aliasKeys
      ensures SemanticResult(plan(s), decision)
      ensures Progress(aliases0, mappings0, if decision.Decided? then goals[s.id := plan(s)] else goals)
    {
      decision := SemanticDecision(policy, embedded, rows);
      SemanticFacts(w, s);
      if decision.Decided? {
        assert rows[0] in rows;
        OffersNames(w, s);
        var names := SourceNames(lex, s);
        Settle(plan, aliases0, mappings0, goals, lex, s, decision.concept, Semantic, decision.score, names, key => Alt);
      }
    }

    method SemanticStep(ghost w: Snapshot, ghost plan: Plan, ghost aliases0: Aliases, ghost mappings0: Mappings,
                        ghost sources: seq<Source>, ghost list: seq<Source>, ghost j: nat, lex: Lexicon,
                        policy: Policy, p: Pending, embedded: bool, rows: Ranked, counts: Counts,
                        unmatched: seq<Source>)
      returns (counts': Counts, unmatched': seq<Source>)
      requires lex == w.lex && policy == w.policy && embedded == w.embedded && rows == w.semantic(p.source.id)
      requires plan(p.source) == VerdictOf(w, p.source) && TargetsExist(w, concepts)
      requires DistinctIds(sources) && list == Select(plan, sources, AFTER_TRGM) && DistinctIds(list)
      requires j < |list| && p == Pending(list[j], plan(list[j]).stillDoubted)
      requires Progress(aliases0, mappings0,
                        GoalsOf(plan, sources, BEFORE_SEMANTIC) + GoalsOf(plan, list[..j], {Semantic}))
      requires Tallies(plan, counts, sources, FIRST_TWO, list[..j], {Semantic, Unresolved})
               && unmatched == Select(plan, list[..j], {Created})
      modifies this`aliases, this`mappings, this`aliasIndex, this`aliasKeys
      ensures Progress(aliases0, mappings0,
                       GoalsOf(plan, sources, BEFORE_SEMANTIC) + GoalsOf(plan, list[..j + 1], {Semantic}))
      ensures Tallies(plan, counts', sources, FIRST_TWO, list[..j + 1], {Semantic, Unresolved})
              && unmatched' == Select(plan, list[..j + 1], {Created})
    {
      ghost var base := GoalsOf(plan, sources, BEFORE_SEMANTIC);
      KindSets();
      NextInList(plan, sources, BEFORE_SEMANTIC, AFTER_TRGM, list, j, {Semantic});
      var decision := TrySemantic(w, plan, aliases0, mappings0, base + GoalsOf(plan, list[..j], {Semantic}), lex,
                                  policy, p.source, embedded, rows);
      GoalsInList(plan, list, j, {Semantic}, base, decision.Decided?);
      counts', unmatched' := RecordSemantic(plan, sources, list, j, counts, unmatched, p, decision);
    }

    method SemanticPhase(ghost w: Snapshot, ghost plan: Plan, ghost aliases0: Aliases, ghost mappings0: Mappings,
                         ghost sources: seq<Source>, lex: Lexicon, policy: Policy, pending: seq<Pending>,
                         counts: Counts, embedded: bool, semantic: SourceId -> Ranked)
      returns (counts': Counts, unmatched: seq<Source>)
      requires lex == w.lex && policy == w.policy && embedded == w.embedded && semantic == w.semantic
      requires Plans(w, plan) && TargetsExist(w, concepts)
      requires DistinctIds(sources) && pending == Flag(plan, Select(plan, sources, AFTER_TRGM), true)
      requires Progress(aliases0, mappings0, GoalsOf(plan, sources, BEFORE_SEMANTIC))
      requires Tallies(plan, counts, sources, FIRST_TWO, [], {})
      modifies this`aliases, this`mappings, this`aliasIndex, this`aliasKeys
      ensures Progress(aliases0, mappings0, GoalsOf(plan, sources, BEFORE_CREATING))
      ensures Tallies(plan, counts', sources, FIRST_THREE, [], {})
      ensures unmatched == Select(plan, sources, {Created})
    {
      ghost var list := Select(plan, sources, AFTER_TRGM);
      SelectDistinct(plan, sources, AFTER_TRGM);
      counts', unmatched := counts, [];
      NoGoalsYet(plan, GoalsOf(plan, sources, BEFORE_SEMANTIC), list, {Semantic});
      for j := 0 to |pending|
        invariant Progress(aliases0, mappings0,
                           GoalsOf(plan, sources, BEFORE_SEMANTIC) + GoalsOf(plan, list[..j], {Semantic}))
        invariant Tallies(plan, counts', sources, FIRST_TWO, list[..j], {Semantic, Unresolved})
        invariant unmatched == Select(plan, list[..j], {Created})
      {
        counts', unmatched :=
          SemanticStep(w, plan, aliases0, mappings0, sources, list, j, lex, policy, pending[j], embedded,
                                           semantic(pending[j].source.id), counts', unmatched);
      }
      assert list[..|list|] == list;
      KindSets();
      GoalsJoin(plan, sources, BEFORE_SEMANTIC, AFTER_TRGM, {Semantic});
      TalliesJoin(plan, counts', sources, FIRST_TWO, AFTER_TRGM, {Semantic, Unresolved});
      SelectTwice(plan, sources, AFTER_TRGM, {Created});
    }

    /** Last pass, one source: a concept founded on it. */
    method Found(ghost plan: Plan, ghost aliases0: Aliases, ghost mappings0: Mappings, ghost goals: Goals,
                 lex: Lexicon, s: Source)
      requires plan(s).kind == Created && plan(s).target == lex.conceptId(s.externalId) && plan(s).confidence == 1.0
      requires plan(s).offered == FirstNames(lex, lex.variants(s.name))
      requires plan(s).founded == Some(lex.norm(lex.canonical(s.name)))
      requires Progress(aliases0, mappings0, goals) && s.id !in goals
      modifies this
      ensures Progress(aliases0, mappings0, goals[s.id := plan(s)])
      ensures concepts == old(concepts)[lex.conceptId(s.externalId) := NewConcept(lex, s)]
      ensures Offered(lex, old(aliases), aliases, lex.conceptId(s.externalId), lex.variants(s.name))
      ensures forall k :: k in aliases && k !in old(aliases) ==>
                aliases[k].kind == if k.1 == lex.norm(lex.canonical(s.name)) then Preferred else Derived
    {
      var id := lex.conceptId(s.externalId);
      var canonicalKey := lex.norm(lex.canonical(s.name));
      concepts := concepts[id := NewConcept(lex, s)];
      Settle(plan, aliases0, mappings0, goals, lex, s, id, Created, 1.0, lex.variants(s.name),
             key => if key == canonicalKey then Preferred else Derived);
    }

    method CreatePhase(ghost w: Snapshot, ghost plan: Plan, ghost aliases0: Aliases, ghost mappings0: Mappings,
                       ghost sources: seq<Source>, lex: Lexicon, unmatched: seq<Source>, counts: Counts)
      returns (counts': Counts)
      requires lex == w.lex && Plans(w, plan) && DistinctIds(sources) && unmatched == Select(plan, sources, {Created})
      requires Progress(aliases0, mappings0, GoalsOf(plan, sources, BEFORE_CREATING))
      requires Tallies(plan, counts, sources, FIRST_THREE, [], {})
      modifies this
      ensures Progress(aliases0, mappings0, GoalsOf(plan, sources, MAPPED))
      ensures Tallies(plan, counts', sources, FIRST_THREE + {Created}, [], {})
      ensures concepts == AfterCreating(lex, old(concepts), unmatched)
    {
      SelectDistinct(plan, sources, {Created});
      NoGoalsYet(plan, GoalsOf(plan, sources, BEFORE_CREATING), unmatched, {Created});
      counts' := counts;
      for j := 0 to |unmatched|
        invariant Progress(aliases0, mappings0,
                           GoalsOf(plan, sources, BEFORE_CREATING) + GoalsOf(plan, unmatched[..j], {Created}))
        invariant Tallies(plan, counts', sources, FIRST_THREE, unmatched[..j], {Created})
        invariant concepts == AfterCreating(lex, old(concepts), unmatched[..j])
      {
        AfterCreatingNext(lex, old(concepts), unmatched, j);
        counts' := CreateStep(w, plan, aliases0, mappings0, sources, unmatched, j, lex, unmatched[j], counts');
      }
      assert unmatched[..|unmatched|] == unmatched;
      KindSets();
      GoalsJoin(plan, sources, BEFORE_CREATING, {Created}, {Created});
      TalliesJoin(plan, counts', sources, FIRST_THREE, {Created}, {Created});
    }

    method CreateStep(ghost w: Snapshot, ghost plan: Plan, ghost aliases0: Aliases, ghost mappings0: Mappings,
                      ghost sources: seq<Source>, ghost list: seq<Source>, ghost j: nat, lex: Lexicon, s: Source,
                      counts: Counts)
      returns (counts': Counts)
      requires lex == w.lex && plan(s) == VerdictOf(w, s)
      requires DistinctIds(sources) && list == Select(plan, sources, {Created}) && DistinctIds(list) && j < |list|
               && s == list[j]
      requires Progress(aliases0, mappings0,
                        GoalsOf(plan, sources, BEFORE_CREATING) + GoalsOf(plan, list[..j], {Created}))
      requires Tallies(plan, counts, sources, FIRST_THREE, list[..j], {Created})
      modifies this
      ensures Progress(aliases0, mappings0,
                       GoalsOf(plan, sources, BEFORE_CREATING) + GoalsOf(plan, list[..j + 1], {Created}))
      ensures Tallies(plan, counts', sources, FIRST_THREE, list[..j + 1], {Created})
      ensures concepts == old(concepts)[lex.conceptId(s.externalId) := NewConcept(lex, s)]
    {
      ghost var base := GoalsOf(plan, sources, BEFORE_CREATING);
      KindSets();
      NextInList(plan, sources, BEFORE_CREATING, {Created}, list, j, {Created});
      CreatedFacts(w, s);
      Found(plan, aliases0, mappings0, base + GoalsOf(plan, list[..j], {Created}), lex, s);
      GoalsInList(plan, list, j, {Created}, base, true);
      counts' := RecordCreated(plan, sources, list, j, counts);
    }

    method ReconcileOnet(lex: Lexicon, policy: Policy, sources: seq<Source>, trgm: SourceId -> Ranked, embedded: bool,
                         semantic: SourceId -> Ranked)
      returns (result: Result, ghost w: Snapshot)
      requires DistinctIds(sources) && WellFormed()
      requires RowsIn(concepts, trgm) && RowsIn(concepts, semantic)
      modifies this
      ensures w == Snapshot(lex, policy, MappedSources(old(mappings), sources), ActiveNames(old(concepts)),
                            ActiveNames(old(concepts)) + old(aliases).Keys, trgm, embedded, semantic)
      ensures result == Counted(PlanOf(w), sources) && Total(result) == |sources|
      ensures MappingsAre(old(mappings), mappings, GoalsOf(PlanOf(w), sources, MAPPED))
      ensures concepts == AfterCreating(lex, old(concepts), Select(PlanOf(w), sources, {Created}))
      ensures NoSecondOwner(old(aliases), aliases)
      ensures AliasesAre(old(aliases), aliases, GoalsOf(PlanOf(w), sources, MAPPED))
      ensures WellFormed() && (sources != [] ==> IndexAgrees())
    {
      w := Snapshot(lex, policy, MappedSources(mappings, sources), ActiveNames(concepts),
                    ActiveNames(concepts) + aliases.Keys,
                    trgm, embedded, semantic);
      ghost var plan := PlanOf(w);
      CountersCoverSources(plan, sources);
      if sources == [] {
        NothingToDo(plan, sources, lex, concepts, aliases, mappings);
        return Result(0, 0, 0, 0, 0, 0, 0), w;
      }
      result := RunOnSnapshot(w, plan, lex, policy, sources, trgm, embedded, semantic);
    }

    /** The run below the early return. */
    method RunOnSnapshot(ghost w: Snapshot, ghost plan: Plan, lex: Lexicon, policy: Policy, sources: seq<Source>,
                         trgm: SourceId -> Ranked, embedded: bool, semantic: SourceId -> Ranked)
      returns (result: Result)
      requires DistinctIds(sources) && WellFormed() && plan == PlanOf(w)
      requires w.lex == lex && w.existing == MappedSources(mappings, sources)
      requires w.names == ActiveNames(concepts) && w.labels == ActiveNames(concepts) + aliases.Keys
      requires policy == w.policy && trgm == w.trgm && embedded == w.embedded && semantic == w.semantic
      requires RowsIn(concepts, trgm) && RowsIn(concepts, semantic)
      modifies this
      ensures result == Counted(plan, sources)
      ensures WellFormed() && IndexAgrees()
      ensures NoSecondOwner(old(aliases), aliases)
      ensures AliasesAre(old(aliases), aliases, GoalsOf(plan, sources, MAPPED))
      ensures MappingsAre(old(mappings), mappings, GoalsOf(plan, sources, MAPPED))
      ensures concepts == AfterCreating(lex, old(concepts), Select(plan, sources, {Created}))
    {
      var existing, nameIndex, labelIndex := TakeSnapshot(w, sources, lex);
      var counts := RunPhases(w, plan, lex, policy, sources, existing, nameIndex, labelIndex, trgm, embedded, semantic);
      result := Result(counts[Existing], counts[NormalizedLabel], counts[Alias], counts[Trgm], counts[Semantic],
                       counts[Created], counts[Unresolved]);
    }

    /** The sets and indexes computed before the first source. */
    method TakeSnapshot(ghost w: Snapshot, sources: seq<Source>, lex: Lexicon)
      returns (existing: set<SourceId>, nameIndex: OwnerIndex, labelIndex: OwnerIndex)
      requires WellFormed() && w.lex == lex && w.existing == MappedSources(mappings, sources)
      requires w.names == ActiveNames(concepts) && w.labels == ActiveNames(concepts) + aliases.Keys
      requires RowsIn(concepts, w.trgm) && RowsIn(concepts, w.semantic)
      modifies this`aliasIndex, this`aliasKeys
      ensures Took(w, lex, existing, nameIndex, labelIndex) && TargetsExist(w, concepts)
      ensures Progress(aliases, mappings, map[])
    {
      existing := MappedSources(mappings, sources);
      var names := ActiveNames(concepts);
      nameIndex := BuildOwnerIndex(names);
      aliasIndex := BuildOwnerIndex(aliases.Keys);
      labelIndex := MergeOwnerIndexes(nameIndex, aliasIndex, names, aliases.Keys);
      aliasKeys := aliases.Keys;
    }

    method RunPhases(ghost w: Snapshot, ghost plan: Plan, lex: Lexicon, policy: Policy, sources: seq<Source>,
                     existing: set<SourceId>, nameIndex: OwnerIndex, labelIndex: OwnerIndex, trgm: SourceId -> Ranked,
                     embedded: bool, semantic: SourceId -> Ranked)
      returns (counts: Counts)
      requires Took(w, lex, existing, nameIndex, labelIndex) && Plans(w, plan) && TargetsExist(w, concepts)
               && DistinctIds(sources)
      requires policy == w.policy && trgm == w.trgm && embedded == w.embedded && semantic == w.semantic
      requires Progress(aliases, mappings, map[])
      modifies this
      ensures Progress(old(aliases), old(mappings), GoalsOf(plan, sources, MAPPED))
      ensures forall k: Kind :: k in counts && counts[k] == CountKind(plan, sources, k)
      ensures concepts == AfterCreating(lex, old(concepts), Select(plan, sources, {Created}))
    {
      ghost var aliases0, mappings0 := aliases, mappings;
      var pendingTrgm: seq<Pending>;
      counts, pendingTrgm := LabelPhase(w, plan, aliases0, mappings0, lex, sources, existing, nameIndex, labelIndex);
      var pendingSemantic: seq<Pending>;
      counts, pendingSemantic :=
        TrgmPhase(w, plan, aliases0, mappings0, sources, lex, policy, pendingTrgm, counts, trgm);
      var unmatched: seq<Source>;
      counts, unmatched :=
        SemanticPhase(w, plan, aliases0, mappings0, sources, lex, policy, pendingSemantic, counts, embedded, semantic);
      counts := CreatePhase(w, plan, aliases0, mappings0, sources, lex, unmatched, counts);
      AllCounted(plan, counts, sources);
    }
  }

  lemma NothingToDo(plan: Plan, sources: seq<Source>, lex: Lexicon, concepts: Concepts, aliases: Aliases,
                    mappings: Mappings)
    requires sources == []
    ensures Counted(plan, sources) == Result(0, 0, 0, 0, 0, 0, 0)
    ensures MappingsAre(mappings, mappings, GoalsOf(plan, sources, MAPPED)) && NoSecondOwner(aliases, aliases)
    ensures AliasesAre(aliases, aliases, GoalsOf(plan, sources, MAPPED))
    ensures AfterCreating(lex, concepts, Select(plan, sources, {Created})) == concepts
  {
  }

  lemma AllCounted(plan: Plan, counts: Counts, sources: seq<Source>)
    requires Tallies(plan, counts, sources, FIRST_THREE + {Created}, [], {})
    ensures forall k: Kind :: k in counts && counts[k] == CountKind(plan, sources, k)
  {
    forall k: Kind
      ensures k in FIRST_THREE + {Created}
    {
      AllKinds(k);
    }
  }

  const MAPPED: set<Kind> := {NormalizedLabel, Alias, Trgm, Semantic, Created}

  ghost function PlanOf(w: Snapshot): (plan: Plan)
    ensures Plans(w, plan)
  {
    s => VerdictOf(w, s)
  }

  /** The sources that have a mapping. */
  function MappedSources(mappings: Mappings, sources: seq<Source>): set<SourceId> {
    set k, s | k in mappings && s in sources && s.id == k.0 :: k.0
  }

  // ---------------------------------------------------------------- what a whole run leaves

  /** After a run every source but the unresolved is mapped, and one the run mapped has that mapping alone. */
  lemma MappedOnce(w: Snapshot, sources: seq<Source>, before: Mappings, after: Mappings, s: Source)
    requires DistinctIds(sources) && w.existing == MappedSources(before, sources) && s in sources
    requires MappingsAre(before, after, GoalsOf(PlanOf(w), sources, MAPPED))
    ensures KindOf(w, s) in MAPPED ==> forall c :: (s.id, c) in after <==> c == TargetOf(w, s)
    ensures KindOf(w, s) == Existing ==> forall c :: (s.id, c) in after <==> (s.id, c) in before
    ensures KindOf(w, s) == Unresolved ==> forall c :: (s.id, c) !in after
    ensures s.id in MappedSources(after, sources) <==> KindOf(w, s) != Unresolved
  {
    var plan := PlanOf(w);
    GoalsMembers(plan, sources, MAPPED);
    assert s.id in GoalsOf(plan, sources, MAPPED) <==> plan(s).kind in MAPPED by {
      if s.id in GoalsOf(plan, sources, MAPPED) {
        var t :| t in sources && t.id == s.id && plan(t).kind in MAPPED;
        SameIdSameSource(sources, s, t);
      }
    }
    AllKinds(KindOf(w, s));
    if KindOf(w, s) in MAPPED {
      assert (s.id, TargetOf(w, s)) in after;
    } else {
      ExistingIff(w, s);
      if KindOf(w, s) == Existing {
        StillMapped(sources, before, after, s);
      }
    }
  }

  lemma StillMapped(sources: seq<Source>, before: Mappings, after: Mappings, s: Source)
    requires s in sources && s.id in MappedSources(before, sources)
    requires forall c :: (s.id, c) in before ==> (s.id, c) in after
    ensures s.id in MappedSources(after, sources)
  {
    var k :| k in before && k.0 == s.id;
    assert (s.id, k.1) in after;
  }

  lemma AllKinds(kind: Kind)
    ensures kind in MAPPED || kind == Existing || kind == Unresolved
    ensures Existing !in MAPPED && Unresolved !in MAPPED
  {
  }

  /** Every non-empty name key offered for a source the run settled has an owner afterwards. */
  lemma SettledNamesAreOwned(w: Snapshot, sources: seq<Source>, before: Aliases, after: Aliases, s: Source, key: string)
    requires DistinctIds(sources) && s in sources && KindOf(w, s) in MAPPED
    requires AliasesAre(before, after, GoalsOf(PlanOf(w), sources, MAPPED))
    requires key in OfferedNames(w, s) && key != ""
    ensures OwnersIn(after.Keys, key) != {}
  {
    GoalsMembers(PlanOf(w), sources, MAPPED);
    assert GoalsOf(PlanOf(w), sources, MAPPED)[s.id].offered == OfferedNames(w, s);
  }

  // ---------------------------------------------------------------- one mapping for each source

  /** replace_source_mapping never leaves a source with two mappings that had at most one. */
  lemma ReplacingKeepsOne(m: Mappings, sid: SourceId, c: Id, row: MappingRow)
    requires ConceptGraph.OneConceptEach(m.Keys)
    ensures ConceptGraph.OneConceptEach(AfterMapping(m, sid, c, row).Keys)
  {
  }

  datatype Replacement = Replacement(source: SourceId, concept: Id, row: MappingRow)

  /** The mapping table after these calls of replace_source_mapping, the only statement that writes it. */
  function Replaced(calls: seq<Replacement>): Mappings {
    if calls == [] then map[]
    else
      var last := calls[|calls| - 1];
      AfterMapping(Replaced(calls[..|calls| - 1]), last.source, last.concept, last.row)
  }

  /** So whatever the importers do, no source is ever mapped to two concepts, and the graph search is complete. */
  lemma {:induction false} ImportedMappingsAreSingle(calls: seq<Replacement>, db: ConceptGraph.Db)
    requires db.mappings == Replaced(calls).Keys
    ensures ConceptGraph.SingleMapping(db)
  {
    OneEach(calls);
  }

  lemma {:induction false} OneEach(calls: seq<Replacement>)
    ensures ConceptGraph.OneConceptEach(Replaced(calls).Keys)
  {
    if calls != [] {
      var front, last := calls[..|calls| - 1], calls[|calls| - 1];
      OneEach(front);
      ReplacingKeepsOne(Replaced(front), last.source, last.concept, last.row);
    }
  }

  /** A whole run keeps it too. */
  lemma RunKeepsOne(before: Mappings, after: Mappings, goals: Goals)
    requires MappingsAre(before, after, goals) && ConceptGraph.OneConceptEach(before.Keys)
    ensures ConceptGraph.OneConceptEach(after.Keys)
  {
    forall s, a, b | (s, a) in after.Keys && (s, b) in after.Keys
      ensures a == b
    {
      assert (s, a) in after && (s, b) in after;
      assert s !in goals ==> (s, a) in before.Keys && (s, b) in before.Keys;
    }
  }

  /** Running again finds every source mapped by the first run, and only the unresolved are tried again. */
  lemma RerunFindsMapped(w: Snapshot, again: Snapshot, sources: seq<Source>, before: Mappings, after: Mappings)
    requires DistinctIds(sources) && w.existing == MappedSources(before, sources)
    requires MappingsAre(before, after, GoalsOf(PlanOf(w), sources, MAPPED))
    requires again.existing == MappedSources(after, sources)
    ensures CountKind(PlanOf(again), sources, Existing) + CountKind(PlanOf(w), sources, Unresolved) == |sources|
  {
    forall s | s in sources
      ensures KindOf(again, s) == Existing <==> KindOf(w, s) != Unresolved
    {
      MappedOnce(w, sources, before, after, s);
      ExistingIff(again, s);
    }
    ComplementCounts(PlanOf(w), PlanOf(again), sources);
  }

  lemma ExistingIff(w: Snapshot, s: Source)
    ensures KindOf(w, s) == Existing <==> s.id in w.existing
  {
  }

  lemma {:induction false} ComplementCounts(first: Plan, second: Plan, sources: seq<Source>)
    requires forall s :: s in sources ==> (second(s).kind == Existing <==> first(s).kind != Unresolved)
    ensures CountKind(second, sources, Existing) + CountKind(first, sources, Unresolved) == |sources|
  {
    if sources != [] {
      ComplementCounts(first, second, sources[..|sources| - 1]);
    }
  }

  lemma AfterCreatingNext(lex: Lexicon, concepts: Concepts, created: seq<Source>, j: nat)
    requires j < |created|
    ensures AfterCreating(lex, concepts, created[..j + 1])
            == AfterCreating(lex, concepts,
                             created[..j])[lex.conceptId(created[j].externalId) := NewConcept(lex, created[j])]
  {
    assert created[..j + 1][..j] == created[..j];
  }

  function NewConcept(lex: Lexicon, s: Source): ConceptRow {
    ConceptRow(lex.canonical(s.name), lex.norm(lex.canonical(s.name)), true)
  }

  /** The concept table after founding a concept on each source in turn. */
  function AfterCreating(lex: Lexicon, concepts: Concepts, created: seq<Source>): Concepts {
    if created == [] then concepts
    else
      var last := created[|created| - 1];
      AfterCreating(lex, concepts, created[..|created| - 1])[lex.conceptId(last.externalId) := NewConcept(lex, last)]
  }

  /** The vector query decides, wavers, or leaves the source to be created. */
  ghost predicate SemanticResult(v: Verdict, decision: Decision) {
    && (decision.Decided? <==> v.kind == Semantic)
    && (decision.Undecided? ==> v.kind == if v.stillDoubted || decision.ambiguous then Unresolved else Created)
  }

  lemma SemanticFacts(w: Snapshot, s: Source)
    requires KindOf(w, s) in AFTER_TRGM
    ensures SemanticResult(VerdictOf(w, s), SemanticOf(w, s))
    ensures SemanticOf(w, s).Decided? ==>
              TargetOf(w, s) == SemanticOf(w, s).concept && ConfidenceOf(w, s) == SemanticOf(w, s).score
  {
  }

  lemma CreatedFacts(w: Snapshot, s: Source)
    requires KindOf(w, s) == Created
    ensures TargetOf(w, s) == w.lex.conceptId(s.externalId) && ConfidenceOf(w, s) == 1.0
  {
  }

  method RecordSemantic(ghost plan: Plan, ghost sources: seq<Source>, ghost list: seq<Source>, ghost j: nat,
                        counts: Counts, unmatched: seq<Source>, p: Pending, decision: Decision)
    returns (counts': Counts, unmatched': seq<Source>)
    requires j < |list| && p == Pending(list[j], plan(list[j]).stillDoubted) && SemanticResult(plan(list[j]), decision)
    requires Tallies(plan, counts, sources, FIRST_TWO, list[..j], {Semantic, Unresolved})
    requires unmatched == Select(plan, list[..j], {Created})
    ensures Tallies(plan, counts', sources, FIRST_TWO, list[..j + 1], {Semantic, Unresolved})
    ensures unmatched' == Select(plan, list[..j + 1], {Created})
  {
    counts', unmatched' := counts, unmatched;
    NextCount(plan, list, j);
    assert list[..j + 1][..j] == list[..j];
    if decision.Decided? {
      counts' := counts[Semantic := counts[Semantic] + 1];
    } else if p.ambiguous || decision.ambiguous {
      counts' := counts[Unresolved := counts[Unresolved] + 1];
    } else {
      unmatched' := unmatched + [p.source];
    }
  }

  method RecordCreated(ghost plan: Plan, ghost sources: seq<Source>, ghost list: seq<Source>, ghost j: nat,
                       counts: Counts)
    returns (counts': Counts)
    requires j < |list| && plan(list[j]).kind == Created
    requires Tallies(plan, counts, sources, FIRST_THREE, list[..j], {Created})
    ensures Tallies(plan, counts', sources, FIRST_THREE, list[..j + 1], {Created})
  {
    NextCount(plan, list, j);
    counts' := counts[Created := counts[Created] + 1];
  }



  lemma TrgmFacts(w: Snapshot, s: Source)
    requires KindOf(w, s) in LATER
    ensures TrgmOf(w, s).Decided? <==> KindOf(w, s) == Trgm
    ensures TrgmOf(w, s).Decided? ==> TargetOf(w, s) == TrgmOf(w, s).concept && ConfidenceOf(w, s) == TrgmOf(w, s).score
    ensures TrgmOf(w, s).Undecided? ==>
              VerdictOf(w, s).stillDoubted == (VerdictOf(w, s).doubted || TrgmOf(w, s).ambiguous)
  {
  }

  method RecordTrgm(ghost plan: Plan, ghost sources: seq<Source>, ghost list: seq<Source>, ghost j: nat, counts: Counts,
                    left: seq<Pending>, p: Pending, decision: Decision)
    returns (counts': Counts, left': seq<Pending>)
    requires j < |list| && p == Pending(list[j], plan(list[j]).doubted) && plan(list[j]).kind in LATER
    requires decision.Decided? <==> plan(list[j]).kind == Trgm
    requires decision.Undecided? ==> plan(list[j]).stillDoubted == (plan(list[j]).doubted || decision.ambiguous)
    requires Tallies(plan, counts, sources, FIRST, list[..j], {Trgm})
             && left == Flag(plan, Select(plan, list[..j], AFTER_TRGM), true)
    ensures Tallies(plan, counts', sources, FIRST, list[..j + 1], {Trgm})
    ensures left' == Flag(plan, Select(plan, list[..j + 1], AFTER_TRGM), true)
  {
    counts', left' := counts, left;
    NextFlag(plan, list, j, AFTER_TRGM, true);
    NextCount(plan, list, j);
    if decision.Undecided? {
      left' := left + [Pending(p.source, p.ambiguous || decision.ambiguous)];
    } else {
      counts' := counts[Trgm := counts[Trgm] + 1];
    }
  }

  /** Sources of a later list are not settled yet. */
  lemma NextInList(plan: Plan, sources: seq<Source>, base: set<Kind>, kinds: set<Kind>, list: seq<Source>, j: nat,
                   doing: set<Kind>)
    requires DistinctIds(sources) && base !! kinds && list == Select(plan, sources, kinds) && DistinctIds(list)
             && j < |list|
    ensures plan(list[j]).kind in kinds
    ensures list[j].id !in GoalsOf(plan, sources, base) + GoalsOf(plan, list[..j], doing)
  {
    var s := list[j];
    SelectMembers(plan, sources, kinds);
    assert s in list;
    NotYet(plan, list, j, doing);
    GoalsMembers(plan, sources, base);
    if s.id in GoalsOf(plan, sources, base) {
      var t :| t in sources && t.id == s.id && plan(t).kind in base;
      SameIdSameSource(sources, s, t);
    }
  }

  lemma GoalsInList(plan: Plan, list: seq<Source>, j: nat, doing: set<Kind>, base: Goals, decided: bool)
    requires j < |list| && (decided <==> plan(list[j]).kind in doing)
    ensures base + GoalsOf(plan, list[..j + 1], doing)
            == if decided then (base + GoalsOf(plan, list[..j], doing))[list[j].id := plan(list[j])]
              else base + GoalsOf(plan, list[..j], doing)
  {
    assert list[..j + 1][..j] == list[..j];
  }

  /** The whole list of the second phase done is the first two phases done. */
  lemma TrgmJoins(plan: Plan, counts: Counts, sources: seq<Source>)
    requires DistinctIds(sources) && Tallies(plan, counts, sources, FIRST, Select(plan, sources, LATER), {Trgm})
    ensures GoalsOf(plan, sources, BY_LABELS) + GoalsOf(plan, Select(plan, sources, LATER), {Trgm})
            == GoalsOf(plan, sources, BEFORE_SEMANTIC)
    ensures Tallies(plan, counts, sources, FIRST_TWO, [], {})
    ensures Select(plan, Select(plan, sources, LATER), AFTER_TRGM) == Select(plan, sources, AFTER_TRGM)
  {
    KindSets();
    SelectDistinct(plan, sources, LATER);
    GoalsJoin(plan, sources, BY_LABELS, LATER, {Trgm});
    TalliesJoin(plan, counts, sources, FIRST, LATER, {Trgm});
    SelectTwice(plan, sources, LATER, AFTER_TRGM);
  }

  lemma NoGoalsYet(plan: Plan, base: Goals, list: seq<Source>, doing: set<Kind>)
    ensures base + GoalsOf(plan, list[..0], doing) == base
  {
  }

  lemma GoalsJoin(plan: Plan, sources: seq<Source>, base: set<Kind>, kinds: set<Kind>, doing: set<Kind>)
    requires DistinctIds(sources) && DistinctIds(Select(plan, sources, kinds)) && doing <= kinds
    ensures GoalsOf(plan, sources, base) + GoalsOf(plan, Select(plan, sources, kinds), doing)
            == GoalsOf(plan, sources, base + doing)
  {
    var list := Select(plan, sources, kinds);
    var left, right := GoalsOf(plan, sources, base) + GoalsOf(plan, list, doing), GoalsOf(plan, sources, base + doing);
    forall sid | sid in left
      ensures sid in right && left[sid] == right[sid]
    {
      GoalOfId(plan, sources, base, kinds, doing, sid);
    }
    forall sid | sid in right
      ensures sid in left
    {
      var s := GoalSource(plan, sources, base + doing, sid);
      if plan(s).kind in base {
        GoalAt(plan, sources, base, s);
      } else {
        SelectMembers(plan, sources, kinds);
        GoalAt(plan, list, doing, s);
      }
    }
  }

  lemma GoalOfId(plan: Plan, sources: seq<Source>, base: set<Kind>, kinds: set<Kind>, doing: set<Kind>, sid: SourceId)
    requires DistinctIds(sources) && DistinctIds(Select(plan, sources, kinds)) && doing <= kinds
    requires sid in GoalsOf(plan, sources, base) + GoalsOf(plan, Select(plan, sources, kinds), doing)
    ensures sid in GoalsOf(plan, sources, base + doing)
    ensures (GoalsOf(plan, sources, base) + GoalsOf(plan, Select(plan, sources, kinds), doing))[sid]
            == GoalsOf(plan, sources, base + doing)[sid]
  {
    var list := Select(plan, sources, kinds);
    if sid in GoalsOf(plan, list, doing) {
      var s := GoalSource(plan, list, doing, sid);
      SelectMembers(plan, sources, kinds);
      GoalAt(plan, sources, base + doing, s);
    } else {
      var s := GoalSource(plan, sources, base, sid);
      GoalAt(plan, sources, base + doing, s);
    }
  }

  lemma KindSets()
    ensures BY_LABELS !! LATER && {Trgm} <= LATER && AFTER_TRGM <= LATER
    ensures BEFORE_SEMANTIC !! AFTER_TRGM && {Semantic} <= AFTER_TRGM && {Created} <= AFTER_TRGM
    ensures BY_LABELS + {Trgm} == BEFORE_SEMANTIC && BEFORE_SEMANTIC + {Semantic} == BEFORE_CREATING
            && BEFORE_CREATING + {Created} == MAPPED
    ensures FIRST + {Trgm} == FIRST_TWO && FIRST_TWO + {Semantic, Unresolved} == FIRST_THREE
    ensures FIRST_THREE + {Created} == {Existing, NormalizedLabel, Alias, Trgm, Semantic, Unresolved, Created}
    ensures {Semantic, Unresolved} <= AFTER_TRGM && BEFORE_CREATING !! {Created}
  {
  }

  lemma TalliesJoin(plan: Plan, counts: Counts, sources: seq<Source>, done: set<Kind>, kinds: set<Kind>,
                    doing: set<Kind>)
    requires doing <= kinds && Tallies(plan, counts, sources, done, Select(plan, sources, kinds), doing)
    ensures Tallies(plan, counts, sources, done + doing, [], {})
  {
    forall k: Kind
      ensures k in counts && counts[k] == if k in done + doing then CountKind(plan, sources, k) else 0
    {
      if k in doing {
        SelectKeepsCount(plan, sources, kinds, k);
      }
    }
  }

  lemma NextFlag(plan: Plan, list: seq<Source>, j: nat, later: set<Kind>, afterTrgm: bool)
    requires j < |list|
    ensures Flag(plan, Select(plan, list[..j + 1], later), afterTrgm)
            == Flag(plan, Select(plan, list[..j], later), afterTrgm)
               + (if plan(list[j]).kind in later then [Pending(list[j], Doubt(plan(list[j]), afterTrgm))] else [])
  {
    assert list[..j + 1][..j] == list[..j];
  }


  lemma GoalsNext(plan: Plan, sources: seq<Source>, i: nat, choice: Choice)
    requires i < |sources| && ByLabels(plan(sources[i]), choice)
    ensures GoalsOf(plan, sources[..i + 1], BY_LABELS)
            == if choice.To? then GoalsOf(plan, sources[..i], BY_LABELS)[sources[i].id := plan(sources[i])]
              else GoalsOf(plan, sources[..i], BY_LABELS)
  {
    ChoiceKinds(plan(sources[i]), choice);
    assert sources[..i + 1][..i] == sources[..i];
  }

  /** Counting or queueing one source after the first pass. */
  method Record(ghost plan: Plan, counts: Counts, pending: seq<Pending>, sources: seq<Source>, i: nat, choice: Choice)
    returns (counts': Counts, pending': seq<Pending>)
    requires i < |sources| && DistinctIds(sources) && ByLabels(plan(sources[i]), choice)
    requires Tallies(plan, counts, sources[..i], FIRST, [], {})
             && pending == Flag(plan, Select(plan, sources[..i], LATER), false)
    ensures Tallies(plan, counts', sources[..i + 1], FIRST, [], {})
            && pending' == Flag(plan, Select(plan, sources[..i + 1], LATER), false)
  {
    counts', pending' := counts, pending;
    NextFlag(plan, sources, i, LATER, false);
    ChoiceKinds(plan(sources[i]), choice);
    if choice.Later? {
      CountsIgnore(plan, counts, sources, i, FIRST);
      pending' := pending + [Pending(sources[i], choice.ambiguous)];
    } else {
      var how := if choice.To? then choice.how else Existing;
      CountsBump(plan, counts, sources, i, FIRST, how);
      counts' := counts[how := counts[how] + 1];
    }
  }

  lemma StartsAtZero(plan: Plan, done: set<Kind>)
    ensures Tallies(plan, NO_COUNTS, [], done, [], {})
  {
    forall k: Kind
      ensures k in NO_COUNTS && NO_COUNTS[k] == 0
    {
      match k {
        case Existing =>
        case NormalizedLabel =>
        case Alias =>
        case Trgm =>
        case Semantic =>
        case Created =>
        case Unresolved =>
      }
    }
  }

  lemma ChoiceKinds(v: Verdict, choice: Choice)
    requires ByLabels(v, choice)
    ensures choice.To? <==> v.kind in BY_LABELS
    ensures choice.Later? <==> v.kind in LATER
    ensures choice.Later? <==> v.kind !in FIRST
    ensures !choice.Later? ==> v.kind == if choice.To? then choice.how else Existing
  {
  }

  lemma CountsBump(plan: Plan, counts: Counts, sources: seq<Source>, i: nat, done: set<Kind>, how: Kind)
    requires i < |sources| && Tallies(plan, counts, sources[..i], done, [], {})
    requires plan(sources[i]).kind == how && how in done
    ensures Tallies(plan, counts[how := counts[how] + 1], sources[..i + 1], done, [], {})
  {
    NextCount(plan, sources, i);
  }

  lemma CountsIgnore(plan: Plan, counts: Counts, sources: seq<Source>, i: nat, done: set<Kind>)
    requires i < |sources| && Tallies(plan, counts, sources[..i], done, [], {})
    requires plan(sources[i]).kind !in done
    ensures Tallies(plan, counts, sources[..i + 1], done, [], {})
  {
    NextCount(plan, sources, i);
  }

  const BEFORE_SEMANTIC: set<Kind> := {NormalizedLabel, Alias, Trgm}
  const BEFORE_CREATING: set<Kind> := {NormalizedLabel, Alias, Trgm, Semantic}
  const FIRST: set<Kind> := {Existing, NormalizedLabel, Alias}
  const FIRST_TWO: set<Kind> := {Existing, NormalizedLabel, Alias, Trgm}
  const FIRST_THREE: set<Kind> := {Existing, NormalizedLabel, Alias, Trgm, Semantic, Unresolved}

  /**
   The counters: the kinds done are counted over all sources, those being done over the list, the rest
   are still zero.
   */
  ghost predicate Tallies(plan: Plan, counts: Counts, sources: seq<Source>, done: set<Kind>, list: seq<Source>,
                          doing: set<Kind>) {
    forall k: Kind :: k in counts && counts[k] == (if k in done then CountKind(plan, sources, k)
                                                   else if k in doing then CountKind(plan, list, k) else 0)
  }

  lemma NextCount(plan: Plan, sources: seq<Source>, i: nat)
    requires i < |sources|
    ensures forall k ::
              CountKind(plan, sources[..i + 1], k)
              == CountKind(plan, sources[..i], k) + (if plan(sources[i]).kind == k then 1 else 0)
  {
    assert sources[..i + 1][..i] == sources[..i];
  }

  /** The next source is not settled yet. */
  lemma NotYet(plan: Plan, sources: seq<Source>, i: nat, kinds: set<Kind>)
    requires i < |sources| && DistinctIds(sources)
    ensures sources[i].id !in GoalsOf(plan, sources[..i], kinds)
  {
    GoalsMembers(plan, sources[..i], kinds);
    forall s | s in sources[..i]
      ensures s.id != sources[i].id
    {
      var j :| 0 <= j < i && sources[j] == s;
    }
  }

  /** One more name offered, and its key not free: nothing comes in. */
  lemma OfferRefused(lex: Lexicon, before: Aliases, all: Aliases, id: Id, names: seq<string>, name: string)
    requires Offered(lex, before, all, id, names)
    requires lex.norm(name) == "" || (id, lex.norm(name)) in all || !(OwnersIn(all.Keys, lex.norm(name)) <= {id})
    ensures Offered(lex, before, all, id, names + [name])
  {
    OneMoreName(lex, names, name);
    OwnersSeenThrough(lex, before, all, id, names, lex.norm(name));
  }

  /** One more name offered, and its key free or the concept's own: its row comes in. */
  lemma OfferTaken(lex: Lexicon, before: Aliases, all: Aliases, id: Id, names: seq<string>, name: string, row: AliasRow)
    requires Offered(lex, before, all, id, names) && row.alias == name
    requires lex.norm(name) != "" && (id, lex.norm(name)) !in all && OwnersIn(all.Keys, lex.norm(name)) <= {id}
    ensures Offered(lex, before, all[(id, lex.norm(name)) := row], id, names + [name])
  {
    OneMoreName(lex, names, name);
    OwnersSeenThrough(lex, before, all, id, names, lex.norm(name));
  }

  /** Only this concept's rows came in, so whether somebody else owns a key has not changed. */
  lemma OwnersSeenThrough(lex: Lexicon, before: Aliases, after: Aliases, id: Id, names: seq<string>, key: string)
    requires Offered(lex, before, after, id, names)
    ensures OwnersIn(before.Keys, key) <= {id} <==> OwnersIn(after.Keys, key) <= {id}
  {
    forall x
      ensures x in OwnersIn(before.Keys, key) ==> x in OwnersIn(after.Keys, key)
      ensures x in OwnersIn(after.Keys, key) ==> x == id || x in OwnersIn(before.Keys, key)
    {
      if x in OwnersIn(before.Keys, key) {
        assert (x, key) in after.Keys;
      }
      if x in OwnersIn(after.Keys, key) && x != id {
        assert (x, key) in before.Keys;
      }
    }
  }
}
