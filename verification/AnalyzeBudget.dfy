/**
 The analysis budget: analyze-batch turns what is left of the day's dollars into a number of tasks,
 analyze-match spends them (app/analyze/batch.py, app/analyze/service.py).
 */
module AnalyzeBudget {
  import opened Wrappers
  import opened Seqs

  type Id = nat
  type Day = nat

  datatype MatchRow = MatchRow(id: Id, userId: Id, jobId: Id, cycleAt: nat, rank: Option<nat>, score: Option<real>)

  /** One analyze-match event and the cost in its details (0 where it records none). */
  datatype Charge = Charge(day: Day, cost: real)

  datatype Settings = Settings(dailyBudget: real, estimate: real)

  // ---------------------------------------------------------------- what a batch selects

  predicate SamePair(a: MatchRow, b: MatchRow) {
    a.userId == b.userId && a.jobId == b.jobId
  }

  /** ORDER BY cycle_at DESC, id DESC within a (user, job). */
  predicate Newer(a: MatchRow, b: MatchRow) {
    a.cycleAt > b.cycleAt || (a.cycleAt == b.cycleAt && a.id > b.id)
  }

  predicate IsLatest(rows: seq<MatchRow>, row: MatchRow) {
    forall other :: other in rows && SamePair(row, other) ==> !Newer(other, row)
  }

  predicate Eligible(rows: seq<MatchRow>, analyzed: set<Id>, users: Option<set<Id>>, row: MatchRow) {
    && IsLatest(rows, row)
    && row.rank.Some?
    && row.id !in analyzed
    && (users.Some? ==> row.userId in users.value)
  }

  /** Label tier, then rerank score (NULL last), then recency. */
  predicate GoesBefore(a: MatchRow, b: MatchRow) {
    var ra, rb := if a.rank.Some? then a.rank.value as int else -1, if b.rank.Some? then b.rank.value as int else -1;
    || ra > rb
    || (ra == rb && (
          || (a.score.Some? && b.score.None?)
          || (a.score.Some? && b.score.Some? && a.score.value > b.score.value)
          || (a.score == b.score && a.cycleAt >= b.cycleAt)))
  }

  function EligibleRows(rows: seq<MatchRow>, all: seq<MatchRow>, analyzed: set<Id>,
                        users: Option<set<Id>>): seq<MatchRow> {
    if rows == [] then []
    else (if Eligible(all, analyzed, users, rows[0]) then [rows[0]] else [])
         + EligibleRows(rows[1..], all, analyzed, users)
  }

  function SelectCandidates(rows: seq<MatchRow>, analyzed: set<Id>, limit: nat, users: Option<set<Id>>): seq<MatchRow> {
    var ranked := Sort(GoesBefore, EligibleRows(rows, rows, analyzed, users));
    if limit <= |ranked| then ranked[..limit] else ranked
  }

  predicate DistinctIds(rows: seq<MatchRow>) {
    forall i, j :: 0 <= i < j < |rows| ==> rows[i].id != rows[j].id
  }

  lemma {:induction false} EligibleRowsAre(rows: seq<MatchRow>, all: seq<MatchRow>, analyzed: set<Id>,
                                           users: Option<set<Id>>)
    ensures forall r :: r in EligibleRows(rows, all, analyzed, users) <==>
              r in rows && Eligible(all, analyzed, users, r)
    ensures DistinctIds(rows) ==> DistinctIds(EligibleRows(rows, all, analyzed, users))
  {
    if rows != [] {
      EligibleRowsAre(rows[1..], all, analyzed, users);
      var rest := EligibleRows(rows[1..], all, analyzed, users);
      assert forall i :: 0 <= i < |rest| ==> rest[i] in rows[1..];
    }
  }

  lemma GoesBeforeIsTotal()
    ensures TotalPreorder(GoesBefore)
  {
  }

  lemma MultisetKeepsDistinctIds(a: seq<MatchRow>, b: seq<MatchRow>)
    requires multiset(a) == multiset(b) && DistinctIds(a)
    ensures DistinctIds(b)
  {
    forall i, j | 0 <= i < j < |b|
      ensures b[i].id != b[j].id
    {
      assert b[i] in multiset(a) && b[j] in multiset(a);
      if b[i].id == b[j].id {
        var k :| 0 <= k < |a| && a[k] == b[i];
        var l :| 0 <= l < |a| && a[l] == b[j];
        assert k == l;
        TwiceInMultiset(b, i, j);
        OnceInMultiset(a, k);
      }
    }
  }

  lemma TwiceInMultiset<T>(s: seq<T>, i: nat, j: nat)
    requires i < j < |s| && s[i] == s[j]
    ensures multiset(s)[s[i]] >= 2
  {
    assert s == s[..j] + s[j..];
    assert s[..j][i] in multiset(s[..j]);
    assert s[j..][0] in multiset(s[j..]);
  }

  lemma OnceInMultiset(s: seq<MatchRow>, k: nat)
    requires k < |s| && DistinctIds(s)
    ensures multiset(s)[s[k]] == 1
  {
    assert s == s[..k] + [s[k]] + s[k + 1..];
    assert s[k] !in s[..k] && s[k] !in s[k + 1..];
    assert s[k] !in multiset(s[..k]) && s[k] !in multiset(s[k + 1..]);
  }

  /**
   A batch of at most `limit`: distinct matches, all of them eligible, and best first: no eligible
   match left out goes strictly before one selected, and none is left out while there is room.
   */
  lemma SelectionIsBestFirst(rows: seq<MatchRow>, analyzed: set<Id>, limit: nat, users: Option<set<Id>>)
    requires DistinctIds(rows)
    ensures var chosen := SelectCandidates(rows, analyzed, limit, users);
            && |chosen| <= limit
            && DistinctIds(chosen)
            && (forall r :: r in chosen ==> r in rows && Eligible(rows, analyzed, users, r))
            && (forall r :: r in rows && Eligible(rows, analyzed, users, r) && r !in chosen ==>
                  |chosen| == limit && forall c :: c in chosen ==> GoesBefore(c, r))
  {
    var eligible := EligibleRows(rows, rows, analyzed, users);
    EligibleRowsAre(rows, rows, analyzed, users);
    GoesBeforeIsTotal();
    SortSorted(GoesBefore, eligible);
    SortMultiset(GoesBefore, eligible);
    SortMembers(GoesBefore, eligible);
    var ranked := Sort(GoesBefore, eligible);
    MultisetKeepsDistinctIds(eligible, ranked);
    var chosen := SelectCandidates(rows, analyzed, limit, users);
    assert forall c :: c in chosen ==> c in ranked;
    forall r | r in rows && Eligible(rows, analyzed, users, r) && r !in chosen
      ensures |chosen| == limit && forall c :: c in chosen ==> GoesBefore(c, r)
    {
      var k :| 0 <= k < |ranked| && ranked[k] == r;
      assert k >= |chosen|;
    }
  }

  // ---------------------------------------------------------------- dollars

  function SpentOn(charges: seq<Charge>, day: Day): real {
    if charges == [] then 0.0
    else SpentOn(charges[..|charges| - 1], day)
         + (if charges[|charges| - 1].day == day then charges[|charges| - 1].cost else 0.0)
  }

  function MaxReal(a: real, b: real): real { if a >= b then a else b }

  function Budget(s: Settings): real { MaxReal(0.0, s.dailyBudget) }

  function RemainingOf(s: Settings, spent: real): real { MaxReal(0.0, Budget(s) - spent) }

  function TaskCount(s: Settings, spent: real): nat {
    if s.estimate <= 0.0 then 0
    else
      var q := RemainingOf(s, spent) / s.estimate;
      if q.Floor >= 0 then q.Floor else 0
  }

  /** n estimates. */
  function Reserve(s: Settings, n: nat): real {
    if n == 0 then 0.0 else Reserve(s, n - 1) + s.estimate
  }

  lemma {:induction false} ReserveIsProduct(s: Settings, n: nat)
    ensures Reserve(s, n) == n as real * s.estimate
  {
    if n > 0 {
      ReserveIsProduct(s, n - 1);
      assert n as real * s.estimate == (n - 1) as real * s.estimate + s.estimate;
    }
  }

  lemma {:induction false} ReserveMonotone(s: Settings, a: nat, b: nat)
    requires a <= b && s.estimate >= 0.0
    ensures Reserve(s, a) <= Reserve(s, b)
    decreases b
  {
    if a < b {
      ReserveMonotone(s, a, b - 1);
    }
  }

  lemma FloorBounds(q: real)
    ensures q.Floor as real <= q < (q.Floor + 1) as real
  {
  }

  /** q estimates cover n of them exactly when q is at least n. */
  lemma ReserveAgainst(s: Settings, n: nat, q: real)
    requires s.estimate > 0.0
    ensures n as real <= q ==> Reserve(s, n) <= q * s.estimate
    ensures q < n as real ==> q * s.estimate < Reserve(s, n)
  {
    ReserveIsProduct(s, n);
    var gap := q - n as real;
    assert q * s.estimate == n as real * s.estimate + gap * s.estimate;
    if gap >= 0.0 {
      assert gap * s.estimate >= 0.0;
    } else {
      assert gap * s.estimate < 0.0;
    }
  }

  lemma QuotientRescaled(a: real, c: real)
    requires a >= 0.0 && c > 0.0
    ensures a / c >= 0.0 && a / c * c == a
  {
  }

  /** The floor never allocates more than is left, and leaves less than one estimate unallocated. */
  lemma TaskCountFits(s: Settings, spent: real)
    requires s.estimate > 0.0
    ensures Reserve(s, TaskCount(s, spent)) <= RemainingOf(s, spent) < Reserve(s, TaskCount(s, spent) + 1)
  {
    var q := RemainingOf(s, spent) / s.estimate;
    QuotientRescaled(RemainingOf(s, spent), s.estimate);
    FloorBounds(q);
    var n := TaskCount(s, spent);
    assert n == q.Floor;
    ReserveAgainst(s, n, q);
    ReserveAgainst(s, n + 1, q);
  }
}

/** Runs of batches, deliveries, redeliveries and midnights. */
module AnalyzeRuns {
  import opened Wrappers
  import opened Seqs
  import opened AnalyzeBudget

  /** `raced` is what today's deliveries paid for reports that another delivery had just stored. */
  datatype World = World(
    rows: seq<MatchRow>,
    analyzed: set<Id>,
    charges: seq<Charge>,
    pending: seq<Id>,
    day: Day,
    raced: real)

  /** A paid call, or an end that records no cost (skip, missing docs, permanent or retryable failure). */
  datatype Outcome = Paid(cost: real) | Unpaid

  datatype Step =
    | Batch(users: Option<set<Id>>)
    | Deliver(index: nat, outcome: Outcome, acked: bool)
    | LoseRace(index: nat, cost: real)
    | Midnight
    | MatchesChange(rows: seq<MatchRow>)

  predicate CostOk(s: Settings, cost: real) {
    0.0 <= cost <= s.estimate
  }

  predicate Enabled(s: Settings, w: World, step: Step) {
    match step
    case Batch(_) => w.pending == []
    case Deliver(i, outcome, _) =>
      && i < |w.pending|
      && (outcome.Paid? ==> w.pending[i] !in w.analyzed && CostOk(s, outcome.cost))
    case LoseRace(i, cost) => i < |w.pending| && w.pending[i] in w.analyzed && CostOk(s, cost)
    case Midnight => true
    case MatchesChange(rows) => DistinctIds(rows)
  }

  function Ids(rows: seq<MatchRow>): seq<Id> {
    seq(|rows|, i requires 0 <= i < |rows| => rows[i].id)
  }

  function Allocated(s: Settings, w: World, users: Option<set<Id>>): seq<MatchRow> {
    var count := TaskCount(s, SpentOn(w.charges, w.day));
    if count > 0 then SelectCandidates(w.rows, w.analyzed, count, users) else []
  }

  function Next(s: Settings, w: World, step: Step): World
    requires Enabled(s, w, step)
  {
    match step
    case Batch(users) => w.(pending := w.pending + Ids(Allocated(s, w, users)))
    case Deliver(i, outcome, acked) =>
      var rest := if acked then w.pending[..i] + w.pending[i + 1..] else w.pending;
      if outcome.Paid? then
        w.(analyzed := w.analyzed + {w.pending[i]}, charges := w.charges + [Charge(w.day, outcome.cost)],
           pending := rest)
      else
        w.(charges := w.charges + [Charge(w.day, 0.0)], pending := rest)
    case LoseRace(i, cost) => w.(charges := w.charges + [Charge(w.day, cost)], raced := w.raced + cost)
    case Midnight => w.(day := w.day + 1, raced := 0.0)
    case MatchesChange(rows) => w.(rows := rows)
  }

  ghost predicate IsRun(s: Settings, worlds: seq<World>, steps: seq<Step>) {
    && |worlds| == |steps| + 1
    && forall i :: 0 <= i < |steps| ==> Enabled(s, worlds[i], steps[i]) && worlds[i + 1] == Next(s, worlds[i], steps[i])
  }

  predicate Initial(w: World) {
    w.charges == [] && w.pending == [] && w.raced == 0.0 && DistinctIds(w.rows)
  }

  /** Matches that a task on the queue may still make someone pay for. */
  function Open(w: World): set<Id> {
    set m | m in w.pending && m !in w.analyzed
  }

  /** What is spent today plus an estimate for everything still open fits the budget (plus lost races). */
  ghost predicate Inv(s: Settings, w: World) {
    && DistinctIds(w.rows)
    && (forall i :: 0 <= i < |w.charges| ==> w.charges[i].day <= w.day)
    && (s.estimate <= 0.0 ==> w.pending == [])
    && 0.0 <= w.raced <= SpentOn(w.charges, w.day)
    && SpentOn(w.charges, w.day) + Reserve(s, |Open(w)|) <= Budget(s) + w.raced
  }

  lemma SpentAppend(charges: seq<Charge>, c: Charge, day: Day)
    ensures SpentOn(charges + [c], day) == SpentOn(charges, day) + (if c.day == day then c.cost else 0.0)
  {
    assert (charges + [c])[..|charges|] == charges;
  }

  lemma {:induction false} NothingSpentTomorrow(charges: seq<Charge>, day: Day)
    requires forall i :: 0 <= i < |charges| ==> charges[i].day < day
    ensures SpentOn(charges, day) == 0.0
  {
    if charges != [] {
      NothingSpentTomorrow(charges[..|charges| - 1], day);
    }
  }

  function Members(xs: seq<Id>): set<Id> {
    set x | x in xs
  }

  lemma {:induction false} MembersCount(xs: seq<Id>)
    ensures |Members(xs)| <= |xs|
  {
    if xs != [] {
      var front, last := xs[..|xs| - 1], xs[|xs| - 1];
      MembersCount(front);
      assert xs == front + [last];
      assert Members(xs) == Members(front) + {last};
    }
  }

  lemma OpenAtMostPending(w: World)
    ensures |Open(w)| <= |w.pending|
  {
    MembersCount(w.pending);
    SubsetCard(Open(w), Members(w.pending));
  }

  lemma BatchKeeps(s: Settings, w: World, users: Option<set<Id>>)
    requires Inv(s, w) && Enabled(s, w, Batch(users))
    ensures Inv(s, Next(s, w, Batch(users)))
  {
    var spent := SpentOn(w.charges, w.day);
    var count := TaskCount(s, spent);
    var w' := Next(s, w, Batch(users));
    if count > 0 {
      SelectionIsBestFirst(w.rows, w.analyzed, count, users);
      assert |w'.pending| <= count;
      OpenAtMostPending(w');
      ReserveMonotone(s, |Open(w')|, count);
      TaskCountFits(s, spent);
      ReserveMonotone(s, 1, count);
      assert Reserve(s, |Open(w')|) <= Budget(s) - spent;
    } else {
      assert w'.pending == w.pending;
      assert Open(w') == Open(w);
    }
  }

  /** A delivery opens no match, and a paid one closes its own. */
  lemma DeliveryCloses(s: Settings, w: World, i: nat, outcome: Outcome, acked: bool)
    requires Enabled(s, w, Deliver(i, outcome, acked))
    ensures |Open(Next(s, w, Deliver(i, outcome, acked)))| + (if outcome.Paid? then 1 else 0) <= |Open(w)|
  {
    var w' := Next(s, w, Deliver(i, outcome, acked));
    assert forall m :: m in w'.pending ==> m in w.pending;
    if outcome.Paid? {
      assert w.pending[i] in Open(w);
      SubsetCard(Open(w'), Open(w) - {w.pending[i]});
    } else {
      SubsetCard(Open(w'), Open(w));
    }
  }

  lemma DeliverKeeps(s: Settings, w: World, i: nat, outcome: Outcome, acked: bool)
    requires Inv(s, w) && Enabled(s, w, Deliver(i, outcome, acked))
    ensures Inv(s, Next(s, w, Deliver(i, outcome, acked)))
  {
    var w' := Next(s, w, Deliver(i, outcome, acked));
    var cost := if outcome.Paid? then outcome.cost else 0.0;
    SpentAppend(w.charges, Charge(w.day, cost), w.day);
    DeliveryCloses(s, w, i, outcome, acked);
    assert s.estimate > 0.0;
    ReserveMonotone(s, |Open(w')| + (if outcome.Paid? then 1 else 0), |Open(w)|);
  }

  lemma SameOpen(w: World, w': World)
    requires w'.pending == w.pending && w'.analyzed == w.analyzed
    ensures Open(w') == Open(w)
  {
  }

  lemma RaceKeeps(s: Settings, w: World, i: nat, cost: real)
    requires Inv(s, w) && Enabled(s, w, LoseRace(i, cost))
    ensures Inv(s, Next(s, w, LoseRace(i, cost)))
  {
    var w' := Next(s, w, LoseRace(i, cost));
    assert w'.pending == w.pending && w'.analyzed == w.analyzed;
    SameOpen(w, w');
    SpentAppend(w.charges, Charge(w.day, cost), w.day);
  }

  /** Tasks carried over midnight fit the new day's budget too. */
  lemma MidnightKeeps(s: Settings, w: World)
    requires Inv(s, w)
    ensures Inv(s, Next(s, w, Midnight))
  {
    var w' := Next(s, w, Midnight);
    NothingSpentTomorrow(w.charges, w'.day);
    assert Open(w') == Open(w);
  }

  lemma StepKeeps(s: Settings, w: World, step: Step)
    requires Inv(s, w) && Enabled(s, w, step)
    ensures Inv(s, Next(s, w, step))
  {
    match step
    case Batch(users) => BatchKeeps(s, w, users);
    case Deliver(i, outcome, acked) => DeliverKeeps(s, w, i, outcome, acked);
    case LoseRace(i, cost) => RaceKeeps(s, w, i, cost);
    case Midnight => MidnightKeeps(s, w);
    case MatchesChange(rows) => assert Open(w.(rows := rows)) == Open(w);
  }

  lemma {:induction false} RunInv(s: Settings, worlds: seq<World>, steps: seq<Step>, i: nat)
    requires IsRun(s, worlds, steps) && Initial(worlds[0]) && i < |worlds|
    ensures Inv(s, worlds[i])
  {
    if i == 0 {
      assert Open(worlds[0]) == {};
    } else {
      RunInv(s, worlds, steps, i - 1);
      StepKeeps(s, worlds[i - 1], steps[i - 1]);
    }
  }

  /**
   The day's budget holds: across any number of batches (each started with no analyze task pending),
   deliveries, redeliveries and midnights, with every recorded cost at most the estimate, the day's
   recorded spend is at most the daily budget plus what deliveries that lost an insert race paid.
   */
  lemma BudgetHolds(s: Settings, worlds: seq<World>, steps: seq<Step>, i: nat)
    requires IsRun(s, worlds, steps) && Initial(worlds[0]) && i < |worlds|
    ensures SpentOn(worlds[i].charges, worlds[i].day) <= Budget(s) + worlds[i].raced
  {
    RunInv(s, worlds, steps, i);
    ReserveNonNegative(s, worlds[i]);
  }

  lemma ReserveNonNegative(s: Settings, w: World)
    requires Inv(s, w)
    ensures Reserve(s, |Open(w)|) >= 0.0
  {
    if s.estimate <= 0.0 {
      assert Open(w) == {};
    } else {
      ReserveMonotone(s, 0, |Open(w)|);
    }
  }

  lemma {:induction false} NoRacesNoRacedCost(s: Settings, worlds: seq<World>, steps: seq<Step>, i: nat)
    requires IsRun(s, worlds, steps) && Initial(worlds[0]) && i < |worlds|
    requires forall k :: 0 <= k < |steps| ==> !steps[k].LoseRace?
    ensures worlds[i].raced == 0.0
  {
    if i > 0 {
      NoRacesNoRacedCost(s, worlds, steps, i - 1);
    }
  }

  /** With analyze-match transactions atomic, no race is ever lost and the budget is never exceeded. */
  lemma AtomicDeliveriesStayInBudget(s: Settings, worlds: seq<World>, steps: seq<Step>, i: nat)
    requires IsRun(s, worlds, steps) && Initial(worlds[0]) && i < |worlds|
    requires forall k :: 0 <= k < |steps| ==> !steps[k].LoseRace?
    ensures SpentOn(worlds[i].charges, worlds[i].day) <= Budget(s)
  {
    BudgetHolds(s, worlds, steps, i);
    NoRacesNoRacedCost(s, worlds, steps, i);
  }
}

/** analyze_batch as a loop over the selected matches. */
module AnalyzeBatch {
  import opened Wrappers
  import opened TaskQueue
  import opened AnalyzeBudget
  import opened AnalyzeRuns

  datatype Event = Started | EnqueuedAnalyze(matchId: Id) | Completed(taskCount: nat, enqueued: nat)

  class EventLog {
    var events: seq<Event>
  }

  method SpentToday(charges: seq<Charge>, day: Day) returns (spent: real)
    ensures spent == SpentOn(charges, day)
  {
    spent := 0.0;
    for i := 0 to |charges|
      invariant spent == SpentOn(charges[..i], day)
    {
      assert charges[..i + 1][..i] == charges[..i];
      if charges[i].day == day {
        spent := spent + charges[i].cost;
      }
    }
    assert charges[..|charges|] == charges;
  }

  /** Enqueues exactly the allocation of AnalyzeRuns, in its order, with one event each. */
  method RunBatch(w: World, log: EventLog, queue: BufferedTaskQueue<Id>, s: Settings, users: Option<set<Id>>)
    returns (enqueued: nat)
    modifies log, queue
    ensures queue.pending == old(queue.pending) + Ids(Allocated(s, w, users))
    ensures log.events == old(log.events) + [Started]
                          + seq(|Allocated(s, w, users)|, i requires 0 <= i < |Allocated(s, w, users)| =>
                              EnqueuedAnalyze(Allocated(s, w, users)[i].id))
                          + [Completed(TaskCount(s, SpentOn(w.charges, w.day)), enqueued)]
    ensures enqueued == |Allocated(s, w, users)| <= TaskCount(s, SpentOn(w.charges, w.day))
  {
    log.events := log.events + [Started];
    var spent := SpentToday(w.charges, w.day);
    var taskCount := TaskCount(s, spent);
    var selected: seq<MatchRow> := [];
    if taskCount > 0 {
      selected := SelectCandidates(w.rows, w.analyzed, taskCount, users);
    }
    enqueued := 0;
    ghost var events0 := log.events;
    for i := 0 to |selected|
      invariant queue.pending == old(queue.pending) + Ids(selected[..i])
      invariant log.events == events0 + seq(i, k requires 0 <= k < i => EnqueuedAnalyze(selected[k].id))
      invariant enqueued == i
    {
      queue.Enqueue(selected[i].id);
      log.events := log.events + [EnqueuedAnalyze(selected[i].id)];
      enqueued := enqueued + 1;
      assert Ids(selected[..i + 1]) == Ids(selected[..i]) + [selected[i].id];
    }
    assert selected[..|selected|] == selected;
    log.events := log.events + [Completed(taskCount, enqueued)];
  }
}
