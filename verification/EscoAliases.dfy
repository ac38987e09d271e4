/** _build_alias_rows of the ESCO importer. */
module EscoAliases {
  import opened Wrappers
  import opened DerivedAliases

  datatype AliasType = Preferred | Curated | Alt | Derived

  function Priority(t: AliasType): nat {
    match t
    case Preferred => 0
    case Curated => 1
    case Alt => 2
    case Derived => 3
  }

  /** One source concept: its preferred name and its alternative labels. */
  datatype Concept = Concept(id: Id, name: string, alts: seq<string>)

  datatype CuratedAlias = CuratedAlias(id: Id, aliases: seq<string>)

  datatype Entry = Entry(id: Id, kind: AliasType, alias: string)

  type Owners = map<string, set<Id>>

  function OwnersOf(owners: Owners, key: string): set<Id> {
    if key in owners then owners[key] else {}
  }

  function AddOwner(owners: Owners, key: string, id: Id): Owners {
    owners[key := OwnersOf(owners, key) + {id}]
  }

  /** The owner map of a list of entries. */
  ghost predicate Agrees(lex: Lexicon, entries: seq<Entry>, owners: Owners) {
    && (forall key, id :: (key in owners && id in owners[key]) <==> HasEntry(lex, entries, key, id))
    && (forall key :: key in owners ==> owners[key] != {})
  }

  ghost predicate HasEntry(lex: Lexicon, entries: seq<Entry>, key: string, id: Id) {
    exists e :: e in entries && e.id == id && lex.norm(e.alias) == key
  }

  function LabelsOf(c: Concept): seq<Entry> {
    [Entry(c.id, Preferred, c.name)] + seq(|c.alts|, i requires 0 <= i < |c.alts| => Entry(c.id, Alt, c.alts[i]))
  }

  /** The entries of real labels: those that do not normalize to nothing. */
  function NonBlank(lex: Lexicon, entries: seq<Entry>): seq<Entry> {
    if entries == [] then []
    else NonBlank(lex, entries[..|entries| - 1])
         + (if lex.norm(entries[|entries| - 1].alias) == "" then [] else [entries[|entries| - 1]])
  }

  function RealEntries(lex: Lexicon, concepts: seq<Concept>): seq<Entry> {
    if concepts == [] then []
    else RealEntries(lex, concepts[..|concepts| - 1]) + NonBlank(lex, LabelsOf(concepts[|concepts| - 1]))
  }

  lemma AgreesAppend(lex: Lexicon, entries: seq<Entry>, owners: Owners, e: Entry)
    requires Agrees(lex, entries, owners)
    ensures Agrees(lex, entries + [e], AddOwner(owners, lex.norm(e.alias), e.id))
  {
    var owners' := AddOwner(owners, lex.norm(e.alias), e.id);
    forall key, id
      ensures (key in owners' && id in owners'[key]) <==> HasEntry(lex, entries + [e], key, id)
    {
      HasEntryAppend(lex, entries, e, key, id);
    }
  }

  lemma HasEntryAppend(lex: Lexicon, entries: seq<Entry>, e: Entry, key: string, id: Id)
    ensures HasEntry(lex, entries + [e], key, id) <==>
              HasEntry(lex, entries, key, id) || (e.id == id && lex.norm(e.alias) == key)
  {
    if HasEntry(lex, entries, key, id) {
      var x :| x in entries && x.id == id && lex.norm(x.alias) == key;
      assert x in entries + [e];
    }
    if e.id == id && lex.norm(e.alias) == key {
      assert e in entries + [e];
    }
  }

  /** The labels of one concept: each that has a key becomes an entry and an owner of it. */
  method AddLabels(lex: Lexicon, c: Concept, entries: seq<Entry>, owners: Owners)
    returns (entries': seq<Entry>, owners': Owners)
    requires Agrees(lex, entries, owners)
    ensures entries' == entries + NonBlank(lex, LabelsOf(c))
    ensures Agrees(lex, entries', owners')
  {
    var labels := LabelsOf(c);
    entries', owners' := entries, owners;
    for j := 0 to |labels|
      invariant entries' == entries + NonBlank(lex, labels[..j])
      invariant Agrees(lex, entries', owners')
    {
      var e := labels[j];
      assert labels[..j + 1][..j] == labels[..j];
      var key := lex.norm(e.alias);
      if key != "" {
        AgreesAppend(lex, entries', owners', e);
        owners' := AddOwner(owners', key, e.id);
        entries' := entries' + [e];
      }
    }
    assert labels[..|labels|] == labels;
  }

  method AddRealLabels(lex: Lexicon, concepts: seq<Concept>) returns (entries: seq<Entry>, occupied: Owners)
    ensures entries == RealEntries(lex, concepts)
    ensures Agrees(lex, entries, occupied)
  {
    entries, occupied := [], map[];
    for i := 0 to |concepts|
      invariant entries == RealEntries(lex, concepts[..i])
      invariant Agrees(lex, entries, occupied)
    {
      assert concepts[..i + 1][..i] == concepts[..i];
      entries, occupied := AddLabels(lex, concepts[i], entries, occupied);
    }
    assert concepts[..|concepts|] == concepts;
  }

  // ---------------------------------------------------------------- curated aliases

  function OffersOf(c: CuratedAlias): seq<Entry> {
    seq(|c.aliases|, i requires 0 <= i < |c.aliases| => Entry(c.id, Curated, c.aliases[i]))
  }

  /** The curated aliases of concepts that are in the taxonomy, in file order. */
  function CuratedOffers(known: set<Id>, curated: seq<CuratedAlias>): seq<Entry> {
    if curated == [] then []
    else
      var last := curated[|curated| - 1];
      CuratedOffers(known, curated[..|curated| - 1]) + (if last.id in known then OffersOf(last) else [])
  }

  /** Nobody but e's concept has e's key. */
  ghost predicate FreeOrOwn(lex: Lexicon, entries: seq<Entry>, e: Entry) {
    forall x :: x in entries && lex.norm(x.alias) == lex.norm(e.alias) ==> x.id == e.id
  }

  /** The offers that get an entry: each one whose key is free or its concept's own when its turn comes. */
  ghost function AcceptedOffers(lex: Lexicon, labels: seq<Entry>, offers: seq<Entry>): seq<Entry> {
    if offers == [] then []
    else
      var earlier, last := AcceptedOffers(lex, labels, offers[..|offers| - 1]), offers[|offers| - 1];
      earlier + (if FreeOrOwn(lex, labels + earlier, last) then [last] else [])
  }

  /** The owner set of a key decides what the entries say. */
  lemma OwnersDecide(lex: Lexicon, entries: seq<Entry>, owners: Owners, e: Entry)
    requires Agrees(lex, entries, owners)
    ensures var mine := OwnersOf(owners, lex.norm(e.alias));
            (mine == {} || mine == {e.id}) <==> FreeOrOwn(lex, entries, e)
  {
    var key := lex.norm(e.alias);
    var mine := OwnersOf(owners, key);
    forall x | x in entries && lex.norm(x.alias) == key
      ensures x.id in mine
    {
      assert HasEntry(lex, entries, key, x.id);
    }
    forall id | id in mine
      ensures HasEntry(lex, entries, key, id)
    {
    }
    if FreeOrOwn(lex, entries, e) && mine != {} {
      assert mine == {e.id};
    }
  }

  /** One more offer, judged by the owner set of its key. */
  lemma OfferStep(lex: Lexicon, labels: seq<Entry>, offers: seq<Entry>, added: seq<Entry>, owners: Owners, e: Entry)
    requires added == AcceptedOffers(lex, labels, offers) && Agrees(lex, labels + added, owners)
    ensures var mine := OwnersOf(owners, lex.norm(e.alias));
            if mine == {} || mine == {e.id} then
              AcceptedOffers(lex, labels, offers + [e]) == added + [e]
              && Agrees(lex, labels + (added + [e]), AddOwner(owners, lex.norm(e.alias), e.id))
            else AcceptedOffers(lex, labels, offers + [e]) == added
  {
    OwnersDecide(lex, labels + added, owners, e);
    assert (offers + [e])[..|offers|] == offers;
    AgreesAppend(lex, labels + added, owners, e);
    assert labels + (added + [e]) == labels + added + [e];
  }

  lemma NextInOverride(offers: seq<Entry>, override: CuratedAlias, j: nat)
    requires j < |override.aliases|
    ensures offers + OffersOf(override)[..j + 1]
            == offers + OffersOf(override)[..j] + [Entry(override.id, Curated, override.aliases[j])]
  {
  }

  /** One curated override: its aliases that no other concept has. */
  method AddOverride(lex: Lexicon, override: CuratedAlias, labels: seq<Entry>, ghost offers: seq<Entry>,
                     added: seq<Entry>, owners: Owners)
    returns (added': seq<Entry>, owners': Owners)
    requires added == AcceptedOffers(lex, labels, offers) && Agrees(lex, labels + added, owners)
    ensures added' == AcceptedOffers(lex, labels, offers + OffersOf(override))
    ensures Agrees(lex, labels + added', owners')
  {
    added', owners' := added, owners;
    assert offers + OffersOf(override)[..0] == offers;
    for j := 0 to |override.aliases|
      invariant added' == AcceptedOffers(lex, labels, offers + OffersOf(override)[..j])
      invariant Agrees(lex, labels + added', owners')
    {
      var e := Entry(override.id, Curated, override.aliases[j]);
      var mine := OwnersOf(owners', lex.norm(e.alias));
      OfferStep(lex, labels, offers + OffersOf(override)[..j], added', owners', e);
      NextInOverride(offers, override, j);
      if mine != {} && mine != {override.id} {
        continue;
      }
      added', owners' := added' + [e], AddOwner(owners', lex.norm(e.alias), e.id);
    }
    assert OffersOf(override)[..|override.aliases|] == OffersOf(override);
  }

  /** Curated overrides: exactly the accepted offers are added, and the owner map keeps up. */
  method AddCurated(lex: Lexicon, known: set<Id>, curated: seq<CuratedAlias>, labels: seq<Entry>, occupied: Owners)
    returns (added: seq<Entry>, owners: Owners)
    requires Agrees(lex, labels, occupied)
    ensures added == AcceptedOffers(lex, labels, CuratedOffers(known, curated))
    ensures Agrees(lex, labels + added, owners)
  {
    added, owners := [], occupied;
    assert labels + [] == labels;
    for i := 0 to |curated|
      invariant added == AcceptedOffers(lex, labels, CuratedOffers(known, curated[..i]))
      invariant Agrees(lex, labels + added, owners)
    {
      assert curated[..i + 1][..i] == curated[..i];
      if curated[i].id !in known {
        assert CuratedOffers(known, curated[..i + 1]) == CuratedOffers(known, curated[..i]);
        continue;
      }
      added, owners := AddOverride(lex, curated[i], labels, CuratedOffers(known, curated[..i]), added, owners);
    }
    assert curated[..|curated|] == curated;
  }

  /** Accepted offers give no key a second owner: two owners of a key both have it as a real label. */
  lemma {:induction false} AcceptedShareOnlyReal(lex: Lexicon, labels: seq<Entry>, offers: seq<Entry>, key: string,
                                                 a: Id, b: Id)
    requires a != b
    requires HasEntry(lex, labels + AcceptedOffers(lex, labels, offers), key, a)
    requires HasEntry(lex, labels + AcceptedOffers(lex, labels, offers), key, b)
    ensures HasEntry(lex, labels, key, a) && HasEntry(lex, labels, key, b)
  {
    if offers == [] {
      assert labels + [] == labels;
    } else {
      var front, last := offers[..|offers| - 1], offers[|offers| - 1];
      var earlier := AcceptedOffers(lex, labels, front);
      if FreeOrOwn(lex, labels + earlier, last) {
        assert labels + (earlier + [last]) == labels + earlier + [last];
        HasEntryAppend(lex, labels + earlier, last, key, a);
        HasEntryAppend(lex, labels + earlier, last, key, b);
        OwnKeyOnly(lex, labels + earlier, last, key);
      }
      AcceptedShareOnlyReal(lex, labels, front, key, a, b);
    }
  }

  lemma OwnKeyOnly(lex: Lexicon, entries: seq<Entry>, e: Entry, key: string)
    requires FreeOrOwn(lex, entries, e)
    ensures lex.norm(e.alias) == key ==> forall id :: HasEntry(lex, entries, key, id) ==> id == e.id
  {
  }

  /** The first concept to be offered a key. */
  function FirstOffered(lex: Lexicon, offers: seq<Entry>, key: string): Option<Id> {
    if offers == [] then None
    else
      var earlier, last := FirstOffered(lex, offers[..|offers| - 1], key), offers[|offers| - 1];
      if earlier.Some? then earlier else if lex.norm(last.alias) == key then Some(last.id) else None
  }

  ghost predicate HasKey(lex: Lexicon, entries: seq<Entry>, key: string) {
    exists id :: HasEntry(lex, entries, key, id)
  }

  /** May this concept have a curated alias of this key? */
  ghost predicate Entitled(lex: Lexicon, labels: seq<Entry>, offers: seq<Entry>, key: string, id: Id) {
    if HasKey(lex, labels, key) then forall other :: HasEntry(lex, labels, key, other) ==> other == id
    else FirstOffered(lex, offers, key) == Some(id)
  }

  /**
   Which curated aliases get in: an offered (key, concept) has an entry if and only if the real labels
   give the key to that concept alone, or to nobody and the concept is the first one offered it.
   */
  lemma {:induction false} AcceptedIff(lex: Lexicon, labels: seq<Entry>, offers: seq<Entry>, key: string, id: Id)
    ensures HasEntry(lex, AcceptedOffers(lex, labels, offers), key, id)
            <==> HasEntry(lex, offers, key, id) && Entitled(lex, labels, offers, key, id)
    decreases |offers|, 0
  {
    if offers != [] {
      var front, last := offers[..|offers| - 1], offers[|offers| - 1];
      var earlier := AcceptedOffers(lex, labels, front);
      assert offers == front + [last];
      HasEntryAppend(lex, front, last, key, id);
      AcceptedIff(lex, labels, front, key, id);
      if lex.norm(last.alias) == key {
        LastAcceptedIff(lex, labels, front, last);
        if last.id == id {
          HasEntryAppend(lex, earlier, last, key, id);
        } else if FreeOrOwn(lex, labels + earlier, last) {
          HasEntryAppend(lex, earlier, last, key, id);
        }
        FirstOfferedIsOffered(lex, front, key);
      } else if FreeOrOwn(lex, labels + earlier, last) {
        HasEntryAppend(lex, earlier, last, key, id);
      }
    }
  }

  lemma {:induction false} FirstOfferedIsOffered(lex: Lexicon, offers: seq<Entry>, key: string)
    ensures match FirstOffered(lex, offers, key)
            case Some(id) => HasEntry(lex, offers, key, id)
            case None => !HasKey(lex, offers, key)
  {
    if offers != [] {
      var front, last := offers[..|offers| - 1], offers[|offers| - 1];
      FirstOfferedIsOffered(lex, front, key);
      assert offers == front + [last];
      forall id
        ensures HasEntry(lex, offers, key, id) <==>
                  HasEntry(lex, front, key, id) || (last.id == id && lex.norm(last.alias) == key)
      {
        HasEntryAppend(lex, front, last, key, id);
      }
    }
  }

  lemma HasEntryConcat(lex: Lexicon, a: seq<Entry>, b: seq<Entry>, key: string, id: Id)
    ensures HasEntry(lex, a + b, key, id) <==> HasEntry(lex, a, key, id) || HasEntry(lex, b, key, id)
  {
    if HasEntry(lex, a, key, id) {
      var x :| x in a && x.id == id && lex.norm(x.alias) == key;
      assert x in a + b;
    }
    if HasEntry(lex, b, key, id) {
      var x :| x in b && x.id == id && lex.norm(x.alias) == key;
      assert x in a + b;
    }
  }

  /** The last offer is accepted exactly when its concept is entitled to the key. */
  lemma {:induction false} LastAcceptedIff(lex: Lexicon, labels: seq<Entry>, front: seq<Entry>, last: Entry)
    ensures FreeOrOwn(lex, labels + AcceptedOffers(lex, labels, front), last)
            <==> Entitled(lex, labels, front + [last], lex.norm(last.alias), last.id)
    decreases |front|, 1
  {
    var key, earlier := lex.norm(last.alias), AcceptedOffers(lex, labels, front);
    assert (front + [last])[..|front|] == front;
    forall other
      ensures HasEntry(lex, labels + earlier, key, other)
              <==> HasEntry(lex, labels, key, other)
                   || (HasEntry(lex, front, key, other) && Entitled(lex, labels, front, key, other))
    {
      HasEntryConcat(lex, labels, earlier, key, other);
      AcceptedIff(lex, labels, front, key, other);
    }
    FirstOfferedIsOffered(lex, front, key);
    FreeOrOwnByKey(lex, labels + earlier, last);
  }

  lemma FreeOrOwnByKey(lex: Lexicon, entries: seq<Entry>, e: Entry)
    ensures FreeOrOwn(lex, entries, e) <==>
              forall other :: HasEntry(lex, entries, lex.norm(e.alias), other) ==> other == e.id
  {
    forall x | x in entries && lex.norm(x.alias) == lex.norm(e.alias)
      ensures HasEntry(lex, entries, lex.norm(e.alias), x.id)
    {
    }
  }

  // ---------------------------------------------------------------- derived aliases

  function EntryClaims(entries: seq<Entry>): seq<Claim> {
    seq(|entries|, i requires 0 <= i < |entries| => Claim(entries[i].id, entries[i].alias))
  }

  /** derived_candidates: every unoccupied derived key with all its claimants. */
  ghost predicate IsCandidates(lex: Lexicon, entries: seq<Entry>, occupied: set<string>, candidates: Owners) {
    forall key :: && (key in candidates <==> key !in occupied && Claimants(lex, EntryClaims(entries), key) != {})
                  && (key in candidates ==> candidates[key] == Claimants(lex, EntryClaims(entries), key))
  }

  lemma CandidatesStep(lex: Lexicon, entries: seq<Entry>, occupied: set<string>, candidates: Owners, e: Entry)
    requires IsCandidates(lex, entries, occupied, candidates)
    ensures var derived := DerivedKey(lex, e.alias);
            IsCandidates(lex, entries + [e], occupied,
                         if derived.None? || derived.value in occupied then candidates
                         else AddOwner(candidates, derived.value, e.id))
  {
    assert EntryClaims(entries + [e]) == EntryClaims(entries) + [Claim(e.id, e.alias)];
    forall key
      ensures Claimants(lex, EntryClaims(entries + [e]), key)
              == Claimants(lex, EntryClaims(entries), key)
                + (if DerivedKey(lex, e.alias) == Some(key) then {e.id} else {})
    {
      ClaimantsAppend(lex, EntryClaims(entries), Claim(e.id, e.alias), key);
    }
  }

  /** This entry's bare name makes its concept a claimant of the key. */
  predicate Yields(lex: Lexicon, e: Entry, id: Id, key: string) {
    e.id == id && DerivedKey(lex, e.alias) == Some(key)
  }

  /** The surface of a claim: the bare name of the last entry that makes it. */
  ghost predicate IsSurface(lex: Lexicon, entries: seq<Entry>, id: Id, key: string, surface: string) {
    exists n :: && 0 <= n < |entries| && Yields(lex, entries[n], id, key) && lex.bare(entries[n].alias) == Some(surface)
                && forall m :: n < m < |entries| ==> !Yields(lex, entries[m], id, key)
  }

  type Surfaces = map<(Id, string), string>

  ghost predicate HasSurfaces(lex: Lexicon, entries: seq<Entry>, candidates: Owners, surfaces: Surfaces) {
    forall key, id :: key in candidates && id in candidates[key] ==>
                        (id, key) in surfaces && IsSurface(lex, entries, id, key, surfaces[(id, key)])
  }

  lemma SurfaceStays(lex: Lexicon, entries: seq<Entry>, e: Entry, id: Id, key: string, surface: string)
    requires IsSurface(lex, entries, id, key, surface) && !Yields(lex, e, id, key)
    ensures IsSurface(lex, entries + [e], id, key, surface)
  {
    var n :| 0 <= n < |entries| && Yields(lex, entries[n], id, key) && lex.bare(entries[n].alias) == Some(surface)
             && forall m :: n < m < |entries| ==> !Yields(lex, entries[m], id, key);
    assert (entries + [e])[n] == entries[n];
  }

  lemma SurfaceIsNew(lex: Lexicon, entries: seq<Entry>, e: Entry, key: string)
    requires Yields(lex, e, e.id, key)
    ensures IsSurface(lex, entries + [e], e.id, key, lex.bare(e.alias).value)
  {
    assert (entries + [e])[|entries|] == e;
  }

  lemma SurfacesStep(lex: Lexicon, entries: seq<Entry>, candidates: Owners, surfaces: Surfaces, e: Entry, key: string)
    requires HasSurfaces(lex, entries, candidates, surfaces) && DerivedKey(lex, e.alias) == Some(key)
    ensures HasSurfaces(lex, entries + [e], AddOwner(candidates, key, e.id),
                        surfaces[(e.id, key) := lex.bare(e.alias).value])
  {
    var surfaces' := surfaces[(e.id, key) := lex.bare(e.alias).value];
    forall k, id | k in AddOwner(candidates, key, e.id) && id in AddOwner(candidates, key, e.id)[k]
      ensures (id, k) in surfaces' && IsSurface(lex, entries + [e], id, k, surfaces'[(id, k)])
    {
      if id == e.id && k == key {
        SurfaceIsNew(lex, entries, e, key);
      } else {
        assert k in candidates && id in candidates[k];
        SurfaceStays(lex, entries, e, id, k, surfaces[(id, k)]);
      }
    }
  }

  lemma SurfacesSkip(lex: Lexicon, entries: seq<Entry>, candidates: Owners, surfaces: Surfaces, e: Entry)
    requires HasSurfaces(lex, entries, candidates, surfaces)
    requires DerivedKey(lex, e.alias).Some? ==> DerivedKey(lex, e.alias).value !in candidates
    ensures HasSurfaces(lex, entries + [e], candidates, surfaces)
  {
    forall k, id | k in candidates && id in candidates[k]
      ensures (id, k) in surfaces && IsSurface(lex, entries + [e], id, k, surfaces[(id, k)])
    {
      SurfaceStays(lex, entries, e, id, k, surfaces[(id, k)]);
    }
  }

  method CollectDerived(lex: Lexicon, entries: seq<Entry>, occupied: set<string>)
    returns (candidates: Owners, surfaces: Surfaces)
    ensures IsCandidates(lex, entries, occupied, candidates)
    ensures HasSurfaces(lex, entries, candidates, surfaces)
  {
    candidates, surfaces := map[], map[];
    for i := 0 to |entries|
      invariant IsCandidates(lex, entries[..i], occupied, candidates)
      invariant HasSurfaces(lex, entries[..i], candidates, surfaces)
    {
      var e := entries[i];
      CandidatesStep(lex, entries[..i], occupied, candidates, e);
      assert entries[..i + 1] == entries[..i] + [e];
      var derived := DerivedKey(lex, e.alias);
      if derived.None? || derived.value in occupied {
        SurfacesSkip(lex, entries[..i], candidates, surfaces, e);
        continue;
      }
      SurfacesStep(lex, entries[..i], candidates, surfaces, e, derived.value);
      candidates := AddOwner(candidates, derived.value, e.id);
      surfaces := surfaces[(e.id, derived.value) := lex.bare(e.alias).value];
    }
    assert entries[..|entries|] == entries;
  }

  /** Keys with exactly one owner, mapped to it. */
  ghost predicate IsSoleOwners(candidates: Owners, index: map<string, Id>) {
    forall key :: && (key in index <==> key in candidates && exists id :: candidates[key] == {id})
                  && (key in index ==> candidates[key] == {index[key]})
  }

  /** The part of that which concerns the keys done so far. */
  ghost predicate SoleSoFar(candidates: Owners, done: set<string>, index: map<string, Id>) {
    forall key :: && (key in index <==> key in done && key in candidates && exists id :: candidates[key] == {id})
                  && (key in index ==> candidates[key] == {index[key]})
  }

  lemma OneElement(s: set<Id>)
    ensures |s| == 1 <==> exists id :: s == {id}
  {
    if |s| == 1 {
      var id :| id in s;
      assert |s - {id}| == 0;
      assert s == {id};
    }
  }

  lemma SoleTaken(candidates: Owners, done: set<string>, index: map<string, Id>, key: string, id: Id)
    requires SoleSoFar(candidates, done, index) && key in candidates && key !in done && candidates[key] == {id}
    ensures SoleSoFar(candidates, done + {key}, index[key := id])
  {
  }

  lemma SoleSkipped(candidates: Owners, done: set<string>, index: map<string, Id>, key: string)
    requires SoleSoFar(candidates, done, index) && key in candidates && key !in done && |candidates[key]| != 1
    ensures SoleSoFar(candidates, done + {key}, index)
  {
    OneElement(candidates[key]);
  }

  method SoleOwners(candidates: Owners) returns (index: map<string, Id>)
    ensures IsSoleOwners(candidates, index)
  {
    index := map[];
    var keys := candidates.Keys;
    while keys != {}
      invariant keys <= candidates.Keys
      invariant SoleSoFar(candidates, candidates.Keys - keys, index)
      decreases keys
    {
      var key :| key in keys;
      var owners := candidates[key];
      ghost var done := candidates.Keys - keys;
      keys := keys - {key};
      assert candidates.Keys - keys == done + {key};
      if |owners| != 1 {
        SoleSkipped(candidates, done, index, key);
        continue;
      }
      var id :| id in owners;
      OneElement(owners);
      SoleTaken(candidates, done, index, key, id);
      index := index[key := id];
    }
  }

  /** The owner-set computation meets the same specification as the one-pass algorithm. */
  lemma OwnerSetsMeetSpecification(lex: Lexicon, entries: seq<Entry>, occupied: set<string>, candidates: Owners,
                                   index: map<string, Id>)
    requires IsCandidates(lex, entries, occupied, candidates) && IsSoleOwners(candidates, index)
    ensures IsDerivedIndex(lex, EntryClaims(entries), occupied, index)
  {
    forall key
      ensures key in index <==> key !in occupied && exists id :: Claimants(lex, EntryClaims(entries), key) == {id}
      ensures key in index ==> Claimants(lex, EntryClaims(entries), key) == {index[key]}
    {
      assert key in index <==> key in candidates && exists id :: candidates[key] == {id};
      if id :| Claimants(lex, EntryClaims(entries), key) == {id} {
        assert id in Claimants(lex, EntryClaims(entries), key);
      }
    }
  }

  /** The entry of a sole claimant, with the surface of its claim. */
  ghost predicate IsDerivedEntry(lex: Lexicon, entries: seq<Entry>, index: map<string, Id>, e: Entry) {
    && e.kind == Derived && lex.norm(e.alias) in index && index[lex.norm(e.alias)] == e.id
    && IsSurface(lex, entries, e.id, lex.norm(e.alias), e.alias)
  }

  /** Every key met has its entry, and every entry is that of its key. */
  ghost predicate DerivedSoFar(lex: Lexicon, entries: seq<Entry>, sole: map<string, Id>, rest: set<string>,
                               derived: seq<Entry>) {
    && (forall key :: key in sole && key !in rest ==> HasEntry(lex, derived, key, sole[key]))
    && (forall e :: e in derived ==> IsDerivedEntry(lex, entries, sole, e))
  }

  lemma DerivedStep(lex: Lexicon, entries: seq<Entry>, sole: map<string, Id>, rest: set<string>, derived: seq<Entry>,
                    e: Entry)
    requires DerivedSoFar(lex, entries, sole, rest, derived) && IsDerivedEntry(lex, entries, sole, e)
    ensures DerivedSoFar(lex, entries, sole, rest - {lex.norm(e.alias)}, derived + [e])
  {
    forall key | key in sole && key !in rest - {lex.norm(e.alias)}
      ensures HasEntry(lex, derived + [e], key, sole[key])
    {
      HasEntryAppend(lex, derived, e, key, sole[key]);
    }
  }

  lemma ClaimantHasSurface(lex: Lexicon, entries: seq<Entry>, candidates: Owners, surfaces: Surfaces,
                           sole: map<string, Id>, key: string)
    requires HasSurfaces(lex, entries, candidates, surfaces) && IsSoleOwners(candidates, sole) && key in sole
    ensures (sole[key], key) in surfaces && lex.norm(surfaces[(sole[key], key)]) == key
    ensures IsDerivedEntry(lex, entries, sole, Entry(sole[key], Derived, surfaces[(sole[key], key)]))
  {
    assert sole[key] in candidates[key];
  }

  /** The derived entries, one for each sole claimant, in no particular order: every one is new to its key. */
  method DerivedEntries(lex: Lexicon, entries: seq<Entry>, occupied: set<string>)
    returns (derived: seq<Entry>, ghost index: map<string, Id>)
    ensures IsDerivedIndex(lex, EntryClaims(entries), occupied, index)
    ensures DerivedSoFar(lex, entries, index, {}, derived)
  {
    var candidates, surfaces := CollectDerived(lex, entries, occupied);
    var sole := SoleOwners(candidates);
    OwnerSetsMeetSpecification(lex, entries, occupied, candidates, sole);
    index, derived := sole, [];
    var keys := sole.Keys;
    while keys != {}
      invariant keys <= sole.Keys && DerivedSoFar(lex, entries, sole, keys, derived)
      decreases keys
    {
      var key :| key in keys;
      var id := sole[key];
      ClaimantHasSurface(lex, entries, candidates, surfaces, sole, key);
      var e := Entry(id, Derived, surfaces[(id, key)]);
      DerivedStep(lex, entries, sole, keys, derived, e);
      derived, keys := derived + [e], keys - {key};
    }
  }

  lemma {:induction false} NonBlankMembership(lex: Lexicon, entries: seq<Entry>)
    ensures forall e :: e in NonBlank(lex, entries) <==> e in entries && lex.norm(e.alias) != ""
  {
    if entries != [] {
      NonBlankMembership(lex, entries[..|entries| - 1]);
      assert entries == entries[..|entries| - 1] + [entries[|entries| - 1]];
    }
  }

  lemma LabelsOfMembership(c: Concept)
    ensures forall e :: e in LabelsOf(c) <==>
              e.id == c.id && ((e.kind == Preferred && e.alias == c.name) || (e.kind == Alt && e.alias in c.alts))
  {
    var alts := seq(|c.alts|, i requires 0 <= i < |c.alts| => Entry(c.id, Alt, c.alts[i]));
    forall e: Entry | e.id == c.id && e.kind == Alt && e.alias in c.alts
      ensures e in alts
    {
      var i :| 0 <= i < |c.alts| && c.alts[i] == e.alias;
      assert alts[i] == e;
    }
  }

  lemma {:induction false} RealEntriesMembership(lex: Lexicon, concepts: seq<Concept>, id: Id, text: string)
    ensures (exists e :: e in RealEntries(lex, concepts) && e.id == id && e.alias == text)
            <==> lex.norm(text) != "" && exists c :: c in concepts && c.id == id && text in [c.name] + c.alts
  {
    if concepts != [] {
      var front, last := concepts[..|concepts| - 1], concepts[|concepts| - 1];
      assert concepts == front + [last];
      RealEntriesMembership(lex, front, id, text);
      NonBlankMembership(lex, LabelsOf(last));
      LabelsOfMembership(last);
      if last.id == id && text in [last.name] + last.alts && lex.norm(text) != "" {
        var e := if text == last.name then Entry(id, Preferred, text) else Entry(id, Alt, text);
        assert e in NonBlank(lex, LabelsOf(last));
        assert e in RealEntries(lex, concepts);
      }
      if e :| e in RealEntries(lex, front) && e.id == id && e.alias == text {
        assert e in RealEntries(lex, concepts);
      }
      if e :| e in RealEntries(lex, concepts) && e.id == id && e.alias == text {
        if e in RealEntries(lex, front) {
          var c :| c in front && c.id == id && text in [c.name] + c.alts;
          assert c in concepts;
        } else {
          assert last in concepts;
        }
      }
    }
  }

  // ---------------------------------------------------------------- one row per (concept, key)

  type Rows = map<(Id, string), (AliasType, string)>

  predicate SameRow(lex: Lexicon, x: Entry, y: Entry) {
    x.id == y.id && lex.norm(x.alias) == lex.norm(y.alias)
  }

  /** No entry for the same row has a better priority, and none before it has the same. */
  ghost predicate Leads(lex: Lexicon, entries: seq<Entry>, i: nat)
    requires i < |entries|
  {
    forall j :: 0 <= j < |entries| && SameRow(lex, entries[i], entries[j]) ==>
                  Priority(entries[i].kind) < Priority(entries[j].kind)
                  || (Priority(entries[i].kind) == Priority(entries[j].kind) && i <= j)
  }

  /** This row was written by its leading entry. */
  ghost predicate RowOfLeader(lex: Lexicon, entries: seq<Entry>, k: (Id, string), row: (AliasType, string)) {
    exists i :: && 0 <= i < |entries| && entries[i] == Entry(k.0, row.0, row.1) && lex.norm(row.1) == k.1
                && Leads(lex, entries, i)
  }

  /** A row for every (concept, key) that has an entry, and it is the leading entry's. */
  ghost predicate IsDeduped(lex: Lexicon, entries: seq<Entry>, rows: Rows) {
    && (forall id: Id, key :: (id, key) in rows <==> key != "" && HasEntry(lex, entries, key, id))
    && (forall k :: k in rows ==> RowOfLeader(lex, entries, k, rows[k]))
  }

  lemma LeaderStays(lex: Lexicon, entries: seq<Entry>, e: Entry, k: (Id, string), row: (AliasType, string))
    requires RowOfLeader(lex, entries, k, row)
    requires (e.id, lex.norm(e.alias)) == k ==> Priority(row.0) <= Priority(e.kind)
    ensures RowOfLeader(lex, entries + [e], k, row)
  {
    var i :| 0 <= i < |entries| && entries[i] == Entry(k.0, row.0, row.1) && lex.norm(row.1) == k.1
             && Leads(lex, entries, i);
    assert (entries + [e])[i] == entries[i];
    assert Leads(lex, entries + [e], i);
  }

  lemma NewLeader(lex: Lexicon, entries: seq<Entry>, e: Entry)
    requires forall j :: 0 <= j < |entries| && SameRow(lex, e, entries[j]) ==>
               Priority(e.kind) < Priority(entries[j].kind)
    ensures RowOfLeader(lex, entries + [e], (e.id, lex.norm(e.alias)), (e.kind, e.alias))
  {
    assert (entries + [e])[|entries|] == e;
    assert Leads(lex, entries + [e], |entries|);
  }

  lemma LeaderIsBest(lex: Lexicon, entries: seq<Entry>, k: (Id, string), row: (AliasType, string), e: Entry)
    requires RowOfLeader(lex, entries, k, row) && e in entries && (e.id, lex.norm(e.alias)) == k
    ensures Priority(row.0) <= Priority(e.kind)
  {
    var i :| 0 <= i < |entries| && entries[i] == Entry(k.0, row.0, row.1) && lex.norm(row.1) == k.1
             && Leads(lex, entries, i);
    var j :| 0 <= j < |entries| && entries[j] == e;
    assert SameRow(lex, entries[i], entries[j]);
  }

  lemma DedupStep(lex: Lexicon, entries: seq<Entry>, rows: Rows, e: Entry)
    requires IsDeduped(lex, entries, rows)
    ensures var key := lex.norm(e.alias);
            IsDeduped(lex, entries + [e],
                      if key == "" || ((e.id, key) in rows && Priority(rows[(e.id, key)].0) <= Priority(e.kind)) then
                        rows
                      else rows[(e.id, key) := (e.kind, e.alias)])
  {
    var mine := (e.id, lex.norm(e.alias));
    forall id: Id, key: string
      ensures HasEntry(lex, entries + [e], key, id) <==> HasEntry(lex, entries, key, id) || (id, key) == mine
    {
      HasEntryAppend(lex, entries, e, key, id);
    }
    OthersStay(lex, entries, rows, e);
    if mine.1 != "" && (mine in rows ==> Priority(e.kind) < Priority(rows[mine].0)) {
      Outranks(lex, entries, rows, e);
      NewLeader(lex, entries, e);
    }
  }

  lemma OthersStay(lex: Lexicon, entries: seq<Entry>, rows: Rows, e: Entry)
    requires IsDeduped(lex, entries, rows)
    ensures forall k :: k in rows && (k == (e.id, lex.norm(e.alias)) ==> Priority(rows[k].0) <= Priority(e.kind)) ==>
              RowOfLeader(lex, entries + [e], k, rows[k])
  {
    forall k | k in rows && (k == (e.id, lex.norm(e.alias)) ==> Priority(rows[k].0) <= Priority(e.kind))
      ensures RowOfLeader(lex, entries + [e], k, rows[k])
    {
      LeaderStays(lex, entries, e, k, rows[k]);
    }
  }

  lemma Outranks(lex: Lexicon, entries: seq<Entry>, rows: Rows, e: Entry)
    requires IsDeduped(lex, entries, rows) && lex.norm(e.alias) != ""
    requires (e.id, lex.norm(e.alias)) in rows ==> Priority(e.kind) < Priority(rows[(e.id, lex.norm(e.alias))].0)
    ensures forall j :: 0 <= j < |entries| && SameRow(lex, e, entries[j]) ==>
              Priority(e.kind) < Priority(entries[j].kind)
  {
    var mine := (e.id, lex.norm(e.alias));
    forall j | 0 <= j < |entries| && SameRow(lex, e, entries[j])
      ensures Priority(e.kind) < Priority(entries[j].kind)
    {
      assert HasEntry(lex, entries, mine.1, mine.0);
      LeaderIsBest(lex, entries, mine, rows[mine], entries[j]);
    }
  }

  method Dedup(lex: Lexicon, entries: seq<Entry>) returns (rows: Rows)
    ensures IsDeduped(lex, entries, rows)
  {
    rows := map[];
    for i := 0 to |entries|
      invariant IsDeduped(lex, entries[..i], rows)
    {
      var e := entries[i];
      assert entries[..i + 1] == entries[..i] + [e];
      DedupStep(lex, entries[..i], rows, e);
      var key := lex.norm(e.alias);
      if key == "" {
        continue;
      }
      if (e.id, key) !in rows || Priority(e.kind) < Priority(rows[(e.id, key)].0) {
        rows := rows[(e.id, key) := (e.kind, e.alias)];
      }
    }
    assert entries[..|entries|] == entries;
  }

  // ---------------------------------------------------------------- the rows

  function Ids(concepts: seq<Concept>): set<Id> {
    set c | c in concepts :: c.id
  }

  /** Real labels and accepted curated aliases: what owns a key. */
  ghost function Owned(lex: Lexicon, concepts: seq<Concept>, curated: seq<CuratedAlias>): seq<Entry> {
    var labels := RealEntries(lex, concepts);
    labels + AcceptedOffers(lex, labels, CuratedOffers(Ids(concepts), curated))
  }

  /** The key has no owner, and this concept alone has a label whose bare name normalizes to it. */
  ghost predicate SoleClaimant(lex: Lexicon, owned: seq<Entry>, key: string, id: Id) {
    !HasKey(lex, owned, key) && Claimants(lex, EntryClaims(owned), key) == {id}
  }

  /**
   The alias table: a row for (concept, key) if and only if the concept owns the key or is its sole
   claimant; the row of an owner is its leading entry, the row of a claimant its bare name.
   */
  ghost predicate IsAliasTable(lex: Lexicon, owned: seq<Entry>, rows: Rows) {
    && (forall id: Id, key :: (id, key) in rows <==>
          key != "" && (HasEntry(lex, owned, key, id) || SoleClaimant(lex, owned, key, id)))
    && (forall k :: k in rows ==>
          if HasEntry(lex, owned, k.1, k.0) then RowOfLeader(lex, owned, k, rows[k])
          else rows[k].0 == Derived && IsSurface(lex, owned, k.0, k.1, rows[k].1))
  }

  method BuildAliasRows(lex: Lexicon, concepts: seq<Concept>, curated: seq<CuratedAlias>) returns (rows: Rows)
    ensures IsAliasTable(lex, Owned(lex, concepts, curated), rows)
  {
    var labels, occupied := AddRealLabels(lex, concepts);
    var known := set c | c in concepts :: c.id;
    var added, owners := AddCurated(lex, known, curated, labels, occupied);
    var derived, index := DerivedEntries(lex, labels + added, owners.Keys);
    rows := Dedup(lex, labels + added + derived);
    TableOfEntries(lex, labels + added, owners, derived, index, rows);
  }

  /** Owner sets have the keys of the entries. */
  lemma OwnerKeys(lex: Lexicon, entries: seq<Entry>, owners: Owners)
    requires Agrees(lex, entries, owners)
    ensures forall key :: key in owners <==> HasKey(lex, entries, key)
  {
    forall key
      ensures key in owners <==> HasKey(lex, entries, key)
    {
      if key in owners {
        var id :| id in owners[key];
        assert HasEntry(lex, entries, key, id);
      }
    }
  }

  /** A concept has a derived entry for a key exactly when it is the key's sole claimant. */
  lemma DerivedEntryIff(lex: Lexicon, owned: seq<Entry>, owners: Owners, derived: seq<Entry>, index: map<string, Id>,
                        key: string, id: Id)
    requires Agrees(lex, owned, owners) && IsDerivedIndex(lex, EntryClaims(owned), owners.Keys, index)
    requires DerivedSoFar(lex, owned, index, {}, derived)
    ensures HasEntry(lex, derived, key, id) <==> SoleClaimant(lex, owned, key, id)
    ensures SoleClaimant(lex, owned, key, id) ==> key != ""
  {
    OwnerKeys(lex, owned, owners);
    if SoleClaimant(lex, owned, key, id) {
      assert id in Claimants(lex, EntryClaims(owned), key);
      assert key in index && index[key] == id;
    }
    if HasEntry(lex, derived, key, id) {
      var e :| e in derived && e.id == id && lex.norm(e.alias) == key;
      assert IsDerivedEntry(lex, owned, index, e);
    }
  }

  lemma FromOneOf<T>(a: seq<T>, b: seq<T>, i: nat)
    requires i < |a + b|
    ensures i < |a| || (a + b)[i] in b
  {
  }

  /** A leader among all entries whose key has an owner leads among the owners' entries. */
  lemma OwnedRow(lex: Lexicon, owned: seq<Entry>, derived: seq<Entry>, k: (Id, string), row: (AliasType, string))
    requires RowOfLeader(lex, owned + derived, k, row)
    requires forall e :: e in derived ==> lex.norm(e.alias) != k.1
    ensures RowOfLeader(lex, owned, k, row)
  {
    var all := owned + derived;
    var i :| 0 <= i < |all| && all[i] == Entry(k.0, row.0, row.1) && lex.norm(row.1) == k.1 && Leads(lex, all, i);
    FromOneOf(owned, derived, i);
    forall j | 0 <= j < |owned| && SameRow(lex, owned[i], owned[j])
      ensures Priority(owned[i].kind) < Priority(owned[j].kind)
              || (Priority(owned[i].kind) == Priority(owned[j].kind) && i <= j)
    {
      assert all[j] == owned[j];
    }
    assert Leads(lex, owned, i);
  }

  lemma ClaimantRow(lex: Lexicon, owned: seq<Entry>, derived: seq<Entry>, index: map<string, Id>, k: (Id, string),
                    row: (AliasType, string))
    requires RowOfLeader(lex, owned + derived, k, row) && !HasEntry(lex, owned, k.1, k.0)
    requires DerivedSoFar(lex, owned, index, {}, derived)
    ensures row.0 == Derived && IsSurface(lex, owned, k.0, k.1, row.1)
  {
    var e := Entry(k.0, row.0, row.1);
    assert e in owned + derived;
    assert IsDerivedEntry(lex, owned, index, e);
  }

  lemma TableOfEntries(lex: Lexicon, owned: seq<Entry>, owners: Owners, derived: seq<Entry>, index: map<string, Id>,
                       rows: Rows)
    requires Agrees(lex, owned, owners) && IsDerivedIndex(lex, EntryClaims(owned), owners.Keys, index)
    requires DerivedSoFar(lex, owned, index, {}, derived) && IsDeduped(lex, owned + derived, rows)
    ensures IsAliasTable(lex, owned, rows)
  {
    forall id: Id, key: string
      ensures (id, key) in rows <==>
                key != "" && (HasEntry(lex, owned, key, id) || SoleClaimant(lex, owned, key, id))
    {
      HasEntryConcat(lex, owned, derived, key, id);
      DerivedEntryIff(lex, owned, owners, derived, index, key, id);
    }
    forall k | k in rows
      ensures if HasEntry(lex, owned, k.1, k.0) then RowOfLeader(lex, owned, k, rows[k])
              else rows[k].0 == Derived && IsSurface(lex, owned, k.0, k.1, rows[k].1)
    {
      if HasEntry(lex, owned, k.1, k.0) {
        forall e | e in derived
          ensures lex.norm(e.alias) != k.1
        {
          DerivedEntryIff(lex, owned, owners, derived, index, lex.norm(e.alias), e.id);
          assert HasEntry(lex, derived, lex.norm(e.alias), e.id);
        }
        OwnedRow(lex, owned, derived, k, rows[k]);
      } else {
        ClaimantRow(lex, owned, derived, index, k, rows[k]);
      }
    }
  }

  /**
   No added alias gives a key a second owner: two concepts that share a key both have it as a real
   label, and the row of a derived alias is the only one of its key.
   */
  lemma RowsShareOnlyReal(lex: Lexicon, concepts: seq<Concept>, curated: seq<CuratedAlias>, rows: Rows, a: Id, b: Id,
                          key: string)
    requires IsAliasTable(lex, Owned(lex, concepts, curated), rows)
    requires (a, key) in rows && (b, key) in rows && a != b
    ensures HasEntry(lex, RealEntries(lex, concepts), key, a) && HasEntry(lex, RealEntries(lex, concepts), key, b)
    ensures rows[(a, key)].0 != Derived
  {
    var labels, owned := RealEntries(lex, concepts), Owned(lex, concepts, curated);
    assert SoleClaimant(lex, owned, key, a) ==> !HasEntry(lex, owned, key, b) && !SoleClaimant(lex, owned, key, b);
    assert SoleClaimant(lex, owned, key, b) ==> !HasEntry(lex, owned, key, a);
    AcceptedShareOnlyReal(lex, labels, CuratedOffers(Ids(concepts), curated), key, a, b);
    OwnedAreNotDerived(lex, concepts, curated);
  }

  lemma {:induction false} AcceptedAreOffers(lex: Lexicon, labels: seq<Entry>, offers: seq<Entry>)
    ensures forall e :: e in AcceptedOffers(lex, labels, offers) ==> e in offers
  {
    if offers != [] {
      AcceptedAreOffers(lex, labels, offers[..|offers| - 1]);
    }
  }

  lemma {:induction false} OffersAreCurated(known: set<Id>, curated: seq<CuratedAlias>)
    ensures forall e :: e in CuratedOffers(known, curated) ==> e.kind.Curated? && e.id in known
  {
    if curated != [] {
      OffersAreCurated(known, curated[..|curated| - 1]);
    }
  }

  lemma OwnedAreNotDerived(lex: Lexicon, concepts: seq<Concept>, curated: seq<CuratedAlias>)
    ensures forall e :: e in Owned(lex, concepts, curated) ==> e.kind != Derived
  {
    RealEntriesAreLabels(lex, concepts);
    AcceptedAreOffers(lex, RealEntries(lex, concepts), CuratedOffers(Ids(concepts), curated));
    OffersAreCurated(Ids(concepts), curated);
  }

  lemma {:induction false} RealEntriesAreLabels(lex: Lexicon, concepts: seq<Concept>)
    ensures forall e :: e in RealEntries(lex, concepts) ==> e.kind.Preferred? || e.kind.Alt?
  {
    if concepts != [] {
      var last := concepts[|concepts| - 1];
      RealEntriesAreLabels(lex, concepts[..|concepts| - 1]);
      NonBlankMembership(lex, LabelsOf(last));
      LabelsOfMembership(last);
    }
  }
}
