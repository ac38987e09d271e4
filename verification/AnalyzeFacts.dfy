/** What a batch buys, said without the functions that choose it. */
module AnalyzeFacts {
  import opened Wrappers
  import opened Seqs
  import opened AnalyzeBudget
  import opened AnalyzeRuns

  /** Screened, not analyzed, of one of these users if any are named, and the last match of its user and job. */
  ghost predicate Wanted(w: World, users: Option<set<Id>>, r: MatchRow) {
    && r in w.rows && r.rank.Some? && r.id !in w.analyzed
    && (users.None? || r.userId in users.value)
    && forall o :: o in w.rows && o.userId == r.userId && o.jobId == r.jobId ==>
         o.cycleAt < r.cycleAt || (o.cycleAt == r.cycleAt && o.id <= r.id)
  }

  ghost predicate ScoresAbove(x: Option<real>, y: Option<real>) {
    x.Some? && (y.None? || x.value > y.value)
  }

  /** The better label; then the higher score, a missing one last; then the later cycle. */
  ghost predicate Better(a: MatchRow, b: MatchRow) {
    || (a.rank.Some? && b.rank.Some? && a.rank.value > b.rank.value)
    || (a.rank == b.rank && ScoresAbove(a.score, b.score))
    || (a.rank == b.rank && a.score == b.score && a.cycleAt > b.cycleAt)
  }

  lemma GoesBeforeIff(a: MatchRow, b: MatchRow)
    requires a.rank.Some? && b.rank.Some?
    ensures GoesBefore(a, b) <==> !Better(b, a)
  {
  }

  lemma EligibleIff(w: World, users: Option<set<Id>>, r: MatchRow)
    ensures r in w.rows && Eligible(w.rows, w.analyzed, users, r) <==> Wanted(w, users, r)
  {
    if r in w.rows && Eligible(w.rows, w.analyzed, users, r) {
      forall o | o in w.rows && o.userId == r.userId && o.jobId == r.jobId
        ensures o.cycleAt < r.cycleAt || (o.cycleAt == r.cycleAt && o.id <= r.id)
      {
        assert SamePair(r, o) && !Newer(o, r);
      }
    }
  }

  /** What is left of the day: the budget less what was spent, neither below zero. */
  function Left(s: Settings, spent: real): real {
    var budget := if s.dailyBudget > 0.0 then s.dailyBudget else 0.0;
    if spent < budget then budget - spent else 0.0
  }

  /** So many estimates fit into what is left, and one more does not; none when the estimate is not positive. */
  lemma AffordableIs(s: Settings, spent: real)
    ensures var n := TaskCount(s, spent);
            if s.estimate > 0.0 then n as real * s.estimate <= Left(s, spent) < (n + 1) as real * s.estimate else n == 0
  {
    if s.estimate > 0.0 {
      TaskCountFits(s, spent);
      ReserveIsProduct(s, TaskCount(s, spent));
      ReserveIsProduct(s, TaskCount(s, spent) + 1);
    }
  }

  /** What was spent on a day is the sum of its charges. */
  lemma SpentIsSum(charges: seq<Charge>, c: Charge, day: Day)
    ensures SpentOn([], day) == 0.0
    ensures SpentOn(charges + [c], day) - SpentOn(charges, day) == if c.day == day then c.cost else 0.0
  {
    SpentAppend(charges, c, day);
  }

  /** The chosen are wanted, no one later is better than one earlier, and no one left out is. */
  ghost predicate BestWanted(w: World, users: Option<set<Id>>, chosen: seq<MatchRow>, n: nat) {
    && |chosen| <= n && DistinctIds(chosen)
    && (forall r :: r in chosen ==> Wanted(w, users, r))
    && (forall i, j :: 0 <= i < j < |chosen| ==> !Better(chosen[j], chosen[i]))
    && (forall r :: Wanted(w, users, r) && r !in chosen ==> |chosen| == n && forall c :: c in chosen ==> !Better(r, c))
  }

  lemma ChosenInOrder(w: World, users: Option<set<Id>>, limit: nat)
    ensures var chosen := SelectCandidates(w.rows, w.analyzed, limit, users);
            forall i, j :: 0 <= i < j < |chosen| ==> GoesBefore(chosen[i], chosen[j])
  {
    GoesBeforeIsTotal();
    SortSorted(GoesBefore, EligibleRows(w.rows, w.rows, w.analyzed, users));
  }

  /** A batch buys the best of the matches wanted, best first, as many as the day affords. */
  lemma BatchBuysTheBest(s: Settings, w: World, users: Option<set<Id>>)
    requires DistinctIds(w.rows)
    ensures BestWanted(w, users, Allocated(s, w, users), TaskCount(s, SpentOn(w.charges, w.day)))
  {
    var n := TaskCount(s, SpentOn(w.charges, w.day));
    var chosen := Allocated(s, w, users);
    SelectionIsBestFirst(w.rows, w.analyzed, n, users);
    ChosenInOrder(w, users, n);
    forall r
      ensures r in w.rows && Eligible(w.rows, w.analyzed, users, r) <==> Wanted(w, users, r)
    {
      EligibleIff(w, users, r);
    }
    forall i, j | 0 <= i < j < |chosen|
      ensures !Better(chosen[j], chosen[i])
    {
      assert chosen[i] in chosen && chosen[j] in chosen;
      GoesBeforeIff(chosen[i], chosen[j]);
    }
    forall r, c | Wanted(w, users, r) && r !in chosen && c in chosen
      ensures !Better(r, c)
    {
      GoesBeforeIff(c, r);
    }
  }
}
