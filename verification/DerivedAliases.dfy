/**
 Bare names taken from labels of the form `X (disambiguator)`, computed twice in the source: in one
 pass with a contested set (app/skills/enrich.py) and by owner sets (app/skills/importers/esco.py).
 */
module DerivedAliases {
  import opened Wrappers

  type Id = nat

  /** normalize_label and parenthetical_bare_label. */
  datatype Lexicon = Lexicon(norm: string -> string, bare: string -> Option<string>)

  const AMBIGUOUS_SCAN_TERMS: set<string> := {
    "c", "r", "go", "js", "ts", "ml", "tf", "pg", "rest", "node", "spark", "rails", "spring", "express",
    "lambda", "s3", "ec2", "rds", "git", "excel", "docs", "shell", "unix", "mongo", "torch", "scrum", "kanban"
  }

  function DerivedKey(lex: Lexicon, text: string): Option<string> {
    var bare := lex.bare(text);
    if bare.None? then None
    else
      var key := lex.norm(bare.value);
      if key == "" || |key| <= 2 || key in AMBIGUOUS_SCAN_TERMS then None else Some(key)
  }

  datatype Skill = Skill(id: Id, labels: seq<string>)

  /** One label of one skill. */
  datatype Claim = Claim(id: Id, text: string)

  function ClaimsOf(skill: Skill): seq<Claim> {
    seq(|skill.labels|, i requires 0 <= i < |skill.labels| => Claim(skill.id, skill.labels[i]))
  }

  function Claims(skills: seq<Skill>): seq<Claim> {
    if skills == [] then [] else Claims(skills[..|skills| - 1]) + ClaimsOf(skills[|skills| - 1])
  }

  /** The distinct skills that would claim this derived key. */
  function Claimants(lex: Lexicon, claims: seq<Claim>, key: string): set<Id> {
    set c | c in claims && DerivedKey(lex, c.text) == Some(key) :: c.id
  }

  /**
   The specification: a derived key maps to a skill exactly when that skill alone claims it and no real
   label has it.
   */
  ghost predicate IsDerivedIndex(lex: Lexicon, claims: seq<Claim>, occupied: set<string>, index: map<string, Id>) {
    forall key :: && (key in index <==> key !in occupied && exists id :: Claimants(lex, claims, key) == {id})
                  && (key in index ==> Claimants(lex, claims, key) == {index[key]})
  }

  /** The specification leaves no choice, and sees claims only as a set: order and repetition do not matter. */
  lemma DerivedIndexUnique(lex: Lexicon, a: seq<Claim>, b: seq<Claim>, occupied: set<string>,
                           indexA: map<string, Id>, indexB: map<string, Id>)
    requires forall c: Claim :: DerivedKey(lex, c.text).Some? ==> (c in a <==> c in b)
    requires IsDerivedIndex(lex, a, occupied, indexA) && IsDerivedIndex(lex, b, occupied, indexB)
    ensures indexA == indexB
  {
    forall key
      ensures Claimants(lex, a, key) == Claimants(lex, b, key)
    {
    }
    forall key
      ensures key in indexA <==> key in indexB
    {
      assert key in indexA <==> key !in occupied && exists id :: Claimants(lex, a, key) == {id};
      assert key in indexB <==> key !in occupied && exists id :: Claimants(lex, b, key) == {id};
    }
    forall key | key in indexA
      ensures indexA[key] == indexB[key]
    {
      assert {indexA[key]} == {indexB[key]};
      assert indexA[key] in {indexB[key]};
    }
  }

  lemma {:induction false} ClaimsMembership(skills: seq<Skill>, c: Claim)
    ensures c in Claims(skills) <==> exists s :: s in skills && s.id == c.id && c.text in s.labels
  {
    if skills != [] {
      var front, last := skills[..|skills| - 1], skills[|skills| - 1];
      assert skills == front + [last];
      ClaimsMembership(front, c);
      assert c in ClaimsOf(last) <==> last.id == c.id && c.text in last.labels by {
        if last.id == c.id && c.text in last.labels {
          var i :| 0 <= i < |last.labels| && last.labels[i] == c.text;
          assert ClaimsOf(last)[i] == c;
        }
      }
    }
  }

  /** The state of the one-pass algorithm after some claims. */
  ghost predicate PassState(lex: Lexicon, done: seq<Claim>, occupied: set<string>, candidates: map<string, Id>,
                            contested: set<string>) {
    && IsDerivedIndex(lex, done, occupied, candidates)
    && (forall key :: key in contested <==> key !in occupied && |Claimants(lex, done, key)| >= 2)
  }

  lemma ClaimantsAppend(lex: Lexicon, done: seq<Claim>, c: Claim, key: string)
    ensures Claimants(lex, done + [c], key)
            == Claimants(lex, done, key) + (if DerivedKey(lex, c.text) == Some(key) then {c.id} else {})
  {
  }

  lemma TwoOrNone(s: set<Id>)
    ensures |s| >= 2 <==> s != {} && !exists id :: s == {id}
  {
    if s != {} {
      var x :| x in s;
      assert s == {x} + (s - {x});
      if s - {x} == {} {
        assert s == {x};
      } else {
        var y :| y in s - {x};
        assert s == {x, y} + (s - {x, y});
        assert forall id :: s == {id} ==> x in {id} && y in {id};
      }
    }
  }

  /** One claim: the body of the inner loop. */
  method Step(lex: Lexicon, ghost done: seq<Claim>, c: Claim, occupied: set<string>, candidates: map<string, Id>,
              contested: set<string>)
    returns (candidates': map<string, Id>, contested': set<string>)
    requires PassState(lex, done, occupied, candidates, contested)
    ensures PassState(lex, done + [c], occupied, candidates', contested')
  {
    candidates', contested' := candidates, contested;
    var derived := DerivedKey(lex, c.text);
    if derived.Some? && derived.value !in occupied && derived.value !in contested {
      var key := derived.value;
      if key !in candidates {
        candidates' := candidates[key := c.id];
      } else if candidates[key] != c.id {
        candidates' := candidates - {key};
        contested' := contested + {key};
      }
    }
    StepKeeps(lex, done, c, occupied, candidates, contested, candidates', contested');
  }

  /** What the two maps must say about one key with these claimants. */
  ghost predicate KeyState(free: bool, claimants: set<Id>, candidate: Option<Id>, contested: bool) {
    && (candidate.Some? ==> free && claimants == {candidate.value})
    && (free && (exists id :: claimants == {id}) ==> candidate.Some?)
    && (contested <==> free && claimants != {} && !exists id :: claimants == {id})
  }

  function Lookup(index: map<string, Id>, key: string): Option<Id> {
    if key in index then Some(index[key]) else None
  }

  lemma PassStateByKey(lex: Lexicon, done: seq<Claim>, occupied: set<string>, candidates: map<string, Id>,
                       contested: set<string>)
    ensures PassState(lex, done, occupied, candidates, contested) <==>
              forall key :: KeyState(key !in occupied, Claimants(lex, done, key), Lookup(candidates, key),
                                     key in contested)
  {
    forall key
      ensures |Claimants(lex, done, key)| >= 2 <==>
                Claimants(lex, done, key) != {} && !exists id :: Claimants(lex, done, key) == {id}
    {
      TwoOrNone(Claimants(lex, done, key));
    }
    if PassState(lex, done, occupied, candidates, contested) {
      forall key
        ensures KeyState(key !in occupied, Claimants(lex, done, key), Lookup(candidates, key), key in contested)
      {
        assert key in candidates <==> key !in occupied && exists id :: Claimants(lex, done, key) == {id};
      }
    }
    if forall key :: KeyState(key !in occupied, Claimants(lex, done, key), Lookup(candidates, key), key in contested) {
      forall key
        ensures key in candidates <==> key !in occupied && exists id :: Claimants(lex, done, key) == {id}
        ensures key in candidates ==> Claimants(lex, done, key) == {candidates[key]}
        ensures key in contested <==> key !in occupied && |Claimants(lex, done, key)| >= 2
      {
        assert KeyState(key !in occupied, Claimants(lex, done, key), Lookup(candidates, key), key in contested);
      }
    }
  }

  /** One more claimant of a free key: a first makes a candidate, the same one changes nothing, another contests. */
  lemma ClaimKey(claimants: set<Id>, id: Id, candidate: Option<Id>, contested: bool)
    requires KeyState(true, claimants, candidate, contested)
    ensures contested ==> KeyState(true, claimants + {id}, candidate, contested)
    ensures !contested && candidate.None? ==> KeyState(true, claimants + {id}, Some(id), false)
    ensures !contested && candidate == Some(id) ==> KeyState(true, claimants + {id}, candidate, false)
    ensures !contested && candidate.Some? && candidate != Some(id) ==> KeyState(true, claimants + {id}, None, true)
  {
    if contested {
      forall x
        ensures claimants + {id} != {x}
      {
        assert claimants + {id} == {x} ==> claimants <= {x};
        assert claimants <= {x} ==> claimants == {x};
      }
    } else if candidate.None? {
      assert claimants + {id} == {id};
    } else if candidate == Some(id) {
      assert claimants + {id} == {id};
    } else {
      assert candidate.value in claimants + {id} && id in claimants + {id};
    }
  }

  lemma StepKeeps(lex: Lexicon, done: seq<Claim>, c: Claim, occupied: set<string>, candidates: map<string, Id>,
                  contested: set<string>, candidates': map<string, Id>, contested': set<string>)
    requires PassState(lex, done, occupied, candidates, contested)
    requires var derived := DerivedKey(lex, c.text);
             if derived.None? || derived.value in occupied || derived.value in contested then
               candidates' == candidates && contested' == contested
             else if derived.value !in candidates then
               candidates' == candidates[derived.value := c.id] && contested' == contested
             else if candidates[derived.value] == c.id then
               candidates' == candidates && contested' == contested
             else candidates' == candidates - {derived.value} && contested' == contested + {derived.value}
    ensures PassState(lex, done + [c], occupied, candidates', contested')
  {
    PassStateByKey(lex, done, occupied, candidates, contested);
    PassStateByKey(lex, done + [c], occupied, candidates', contested');
    var derived := DerivedKey(lex, c.text);
    forall key
      ensures KeyState(key !in occupied, Claimants(lex, done + [c], key), Lookup(candidates', key), key in contested')
    {
      ClaimantsAppend(lex, done, c, key);
      assert KeyState(key !in occupied, Claimants(lex, done, key), Lookup(candidates, key), key in contested);
      if derived == Some(key) && key !in occupied {
        ClaimKey(Claimants(lex, done, key), c.id, Lookup(candidates, key), key in contested);
      } else if derived != Some(key) {
        assert Claimants(lex, done + [c], key) == Claimants(lex, done, key);
        assert Lookup(candidates', key) == Lookup(candidates, key);
      }
    }
  }

  /** derived_alias_index: what it computes is the specification, so it does not depend on record order. */
  method DerivedAliasIndex(lex: Lexicon, skills: seq<Skill>, occupied: set<string>) returns (index: map<string, Id>)
    ensures IsDerivedIndex(lex, Claims(skills), occupied, index)
  {
    var contested: set<string> := {};
    index := map[];
    ghost var done: seq<Claim> := [];
    for i := 0 to |skills|
      invariant done == Claims(skills[..i])
      invariant PassState(lex, done, occupied, index, contested)
    {
      var skill := skills[i];
      assert skills[..i + 1][..i] == skills[..i];
      for j := 0 to |skill.labels|
        invariant done == Claims(skills[..i]) + ClaimsOf(skill)[..j]
        invariant PassState(lex, done, occupied, index, contested)
      {
        index, contested := Step(lex, done, Claim(skill.id, skill.labels[j]), occupied, index, contested);
        done := done + [Claim(skill.id, skill.labels[j])];
        assert ClaimsOf(skill)[..j + 1] == ClaimsOf(skill)[..j] + [Claim(skill.id, skill.labels[j])];
      }
      assert ClaimsOf(skill)[..|skill.labels|] == ClaimsOf(skill);
    }
    assert skills[..|skills|] == skills;
  }

  /** The index depends on the records only as a collection: any rearrangement gives the same one. */
  lemma RecordOrderIrrelevant(lex: Lexicon, a: seq<Skill>, b: seq<Skill>, occupied: set<string>,
                              indexA: map<string, Id>, indexB: map<string, Id>)
    requires multiset(a) == multiset(b)
    requires IsDerivedIndex(lex, Claims(a), occupied, indexA) && IsDerivedIndex(lex, Claims(b), occupied, indexB)
    ensures indexA == indexB
  {
    assert forall s :: s in a <==> s in multiset(a);
    assert forall s :: s in b <==> s in multiset(b);
    forall c
      ensures c in Claims(a) <==> c in Claims(b)
    {
      ClaimsMembership(a, c);
      ClaimsMembership(b, c);
    }
    DerivedIndexUnique(lex, Claims(a), Claims(b), occupied, indexA, indexB);
  }
}
