/**
 Which match cycle recalls which extracted job: the incremental date predicate, the watermark it is
 compared with, and the two timestamps on a job (app/match/sql.py, app/match/service.py,
 app/ingest/store.py, app/extract/service.py).

 One logical clock advances with every step. A job's extracted_at is stamped by the worker before its
 transaction commits, so an extraction has a stamp and a later (or equal) moment at which it is visible.
 */
module MatchRecall {
  import opened Wrappers

  type Id = nat
  type Time = nat

  datatype Extraction = Extraction(stamp: Time, visible: Time)

  datatype Job = Job(ingestedAt: Time, extraction: Option<Extraction>)

  datatype Mode = Incremental | Dirty

  /** A completed cycle: its `completed` event's time, the watermark it used and what it could see. */
  datatype Cycle = Cycle(
    mode: Mode,
    sinceOverride: Option<Time>,
    users: set<Id>,
    completedAt: Time,
    since: Option<Time>,
    corpus: map<Id, Job>)

  datatype World = World(clock: Time, jobs: map<Id, Job>, cycles: seq<Cycle>)

  datatype Step =
    | Ingest(job: Id)
    | Extract(job: Id, stamp: Time)
    | CompleteCycle(mode: Mode, sinceOverride: Option<Time>, users: set<Id>)
    | FailCycle

  /** max(ts) over the completed events of every mode. */
  function LastCycleAt(cycles: seq<Cycle>): Option<Time> {
    if cycles == [] then None
    else
      var rest := LastCycleAt(cycles[..|cycles| - 1]);
      var last := cycles[|cycles| - 1].completedAt;
      if rest.Some? && rest.value > last then rest else Some(last)
  }

  /** JOB_SINCE_PREDICATE; a NULL extracted_at fails its comparison. */
  predicate SincePredicate(since: Option<Time>, job: Job) {
    || since.None?
    || job.ingestedAt > since.value
    || (job.extraction.Some? && job.extraction.value.stamp > since.value)
  }

  predicate Enabled(w: World, s: Step) {
    match s
    case Ingest(_) => true
    case Extract(j, stamp) =>
      j in w.jobs && w.jobs[j].extraction.None? && w.jobs[j].ingestedAt < stamp <= w.clock + 1
    case CompleteCycle(_, _, _) => true
    case FailCycle => true
  }

  function SinceFor(cycles: seq<Cycle>, mode: Mode, sinceOverride: Option<Time>): Option<Time> {
    if mode == Dirty then None
    else if sinceOverride.Some? then sinceOverride
    else LastCycleAt(cycles)
  }

  function Next(w: World, s: Step): World
    requires Enabled(w, s)
  {
    var now := w.clock + 1;
    match s
    case Ingest(j) =>
      // The upsert never refreshes ingested_at and never touches the extraction.
      World(now, if j in w.jobs then w.jobs else w.jobs[j := Job(now, None)], w.cycles)
    case Extract(j, stamp) =>
      World(now, w.jobs[j := w.jobs[j].(extraction := Some(Extraction(stamp, now)))], w.cycles)
    case CompleteCycle(mode, sinceOverride, users) =>
      // A cycle with no users runs no query, but it still writes the completed event.
      World(now, w.jobs,
            w.cycles + [Cycle(mode, sinceOverride, users, now, SinceFor(w.cycles, mode, sinceOverride), w.jobs)])
    case FailCycle => World(now, w.jobs, w.cycles)
  }

  /** The cycle's candidate query returns this job, already extracted, for this user. */
  predicate Recalls(c: Cycle, j: Id, user: Id) {
    user in c.users && j in c.corpus && c.corpus[j].extraction.Some? && SincePredicate(c.since, c.corpus[j])
  }

  /** The candidate query returns this job, not yet extracted, for this user: the cycle asks for its extraction. */
  predicate Defers(c: Cycle, j: Id, user: Id) {
    user in c.users && j in c.corpus && c.corpus[j].extraction.None? && SincePredicate(c.since, c.corpus[j])
  }

  /** A cycle driven by the watermark: incremental, without a `since` in its payload. */
  predicate ByWatermark(c: Cycle) {
    c.mode == Incremental && c.sinceOverride.None?
  }

  ghost predicate IsRun(worlds: seq<World>, steps: seq<Step>) {
    && |worlds| == |steps| + 1
    && forall i :: 0 <= i < |steps| ==> Enabled(worlds[i], steps[i]) && worlds[i + 1] == Next(worlds[i], steps[i])
  }

  predicate Initial(w: World) {
    w.jobs == map[] && w.cycles == []
  }

  // ---------------------------------------------------------------- invariant

  /** What cycle k saw of job j is what the job is now, cut off at the cycle's time. */
  predicate SawThen(w: World, k: nat, j: Id)
    requires k < |w.cycles|
  {
    var c := w.cycles[k];
    && (j in c.corpus <==> j in w.jobs && w.jobs[j].ingestedAt < c.completedAt)
    && (j in c.corpus ==> w.jobs[j].ingestedAt == c.corpus[j].ingestedAt)
    && (j in c.corpus && c.corpus[j].extraction.Some? ==>
          w.jobs[j].extraction == c.corpus[j].extraction
          && c.corpus[j].extraction.value.visible < c.completedAt)
    && (j in w.jobs && w.jobs[j].extraction.Some? && w.jobs[j].extraction.value.visible < c.completedAt ==>
          j in c.corpus && c.corpus[j].extraction == w.jobs[j].extraction)
  }

  /** Cycles complete one after the other, each from the watermark its history gives it. */
  ghost predicate CyclesInOrder(w: World) {
    && (forall k :: 0 <= k < |w.cycles| ==> w.cycles[k].completedAt <= w.clock)
    && (forall k, l :: 0 <= k < l < |w.cycles| ==> w.cycles[k].completedAt < w.cycles[l].completedAt)
    && (forall k :: 0 <= k < |w.cycles| ==>
          w.cycles[k].since == SinceFor(w.cycles[..k], w.cycles[k].mode, w.cycles[k].sinceOverride))
  }

  /** A job is ingested, then stamped, then visible, and none of it in the future. */
  ghost predicate JobsInOrder(w: World) {
    && (forall j :: j in w.jobs ==> w.jobs[j].ingestedAt <= w.clock)
    && (forall j :: j in w.jobs && w.jobs[j].extraction.Some? ==>
          w.jobs[j].ingestedAt < w.jobs[j].extraction.value.stamp <= w.jobs[j].extraction.value.visible <= w.clock)
  }

  ghost predicate Inv(w: World) {
    && CyclesInOrder(w)
    && JobsInOrder(w)
    && (forall k, j :: 0 <= k < |w.cycles| && j in w.jobs && w.jobs[j].extraction.Some? ==>
          w.jobs[j].extraction.value.visible != w.cycles[k].completedAt)
    && (forall k, j :: 0 <= k < |w.cycles| ==> SawThen(w, k, j))
  }

  lemma SightStays(w: World, s: Step, k: nat, j: Id)
    requires Inv(w) && Enabled(w, s) && k < |Next(w, s).cycles|
    ensures SawThen(Next(w, s), k, j)
  {
    if k < |w.cycles| {
      assert SawThen(w, k, j);
    }
  }

  lemma JobsStayInOrder(w: World, s: Step)
    requires JobsInOrder(w) && Enabled(w, s)
    ensures JobsInOrder(Next(w, s))
  {
  }

  lemma SinceStays(w: World, s: Step, k: nat)
    requires CyclesInOrder(w) && Enabled(w, s) && k < |Next(w, s).cycles|
    ensures var cycles := Next(w, s).cycles;
            cycles[k].since == SinceFor(cycles[..k], cycles[k].mode, cycles[k].sinceOverride)
  {
    assert Next(w, s).cycles[..k] == w.cycles[..k];
    assert w.cycles[..|w.cycles|] == w.cycles;
  }

  lemma CyclesStayInOrder(w: World, s: Step)
    requires CyclesInOrder(w) && Enabled(w, s)
    ensures CyclesInOrder(Next(w, s))
  {
    var w' := Next(w, s);
    forall k | 0 <= k < |w'.cycles|
      ensures w'.cycles[k].since == SinceFor(w'.cycles[..k], w'.cycles[k].mode, w'.cycles[k].sinceOverride)
    {
      SinceStays(w, s, k);
    }
  }

  lemma StepKeeps(w: World, s: Step)
    requires Inv(w) && Enabled(w, s)
    ensures Inv(Next(w, s))
  {
    JobsStayInOrder(w, s);
    CyclesStayInOrder(w, s);
    forall k, j | 0 <= k < |Next(w, s).cycles|
      ensures SawThen(Next(w, s), k, j)
    {
      SightStays(w, s, k, j);
    }
  }

  lemma {:induction false} RunInv(worlds: seq<World>, steps: seq<Step>, i: nat)
    requires IsRun(worlds, steps) && Initial(worlds[0]) && i < |worlds|
    ensures Inv(worlds[i])
  {
    if i > 0 {
      RunInv(worlds, steps, i - 1);
      StepKeeps(worlds[i - 1], steps[i - 1]);
    }
  }

  /** With increasing completion times the watermark is the last completed cycle's. */
  lemma {:induction false} WatermarkIsLast(cycles: seq<Cycle>)
    requires forall k, l :: 0 <= k < l < |cycles| ==> cycles[k].completedAt < cycles[l].completedAt
    ensures LastCycleAt(cycles) == if cycles == [] then None else Some(cycles[|cycles| - 1].completedAt)
  {
    if cycles != [] {
      WatermarkIsLast(cycles[..|cycles| - 1]);
    }
  }

  // ---------------------------------------------------------------- theorems

  /** Cycle f is the first completed cycle (of any mode, with any users) not before time t. */
  predicate FirstCycleFrom(cycles: seq<Cycle>, t: Time, f: nat) {
    f < |cycles| && cycles[f].completedAt >= t && forall k :: 0 <= k < f ==> cycles[k].completedAt < t
  }

  /**
   A watermark-driven cycle recalls an extracted job for a user exactly when the user is in the cycle
   and the cycle is the first to complete from the job's extraction stamp on, with the extraction
   already visible to it.
   */
  lemma RecallExactly(worlds: seq<World>, steps: seq<Step>, i: nat, c: nat, j: Id, user: Id)
    requires IsRun(worlds, steps) && Initial(worlds[0]) && i < |worlds|
    requires c < |worlds[i].cycles| && ByWatermark(worlds[i].cycles[c])
    ensures var w := worlds[i];
            Recalls(w.cycles[c], j, user) <==>
              && user in w.cycles[c].users
              && j in w.jobs && w.jobs[j].extraction.Some?
              && w.jobs[j].extraction.value.visible < w.cycles[c].completedAt
              && FirstCycleFrom(w.cycles, w.jobs[j].extraction.value.stamp, c)
  {
    RunInv(worlds, steps, i);
    var w := worlds[i];
    assert SawThen(w, c, j);
    WatermarkIsLast(w.cycles[..c]);
    assert c > 0 ==> w.cycles[..c][c - 1] == w.cycles[c - 1];
  }

  /**
   A watermark-driven cycle asks for the extraction of a job for a user exactly when the user is in the
   cycle, the cycle is the first to complete from the job's ingestion on, and no extraction was visible to it.
   */
  lemma DeferExactly(worlds: seq<World>, steps: seq<Step>, i: nat, c: nat, j: Id, user: Id)
    requires IsRun(worlds, steps) && Initial(worlds[0]) && i < |worlds|
    requires c < |worlds[i].cycles| && ByWatermark(worlds[i].cycles[c])
    ensures var w := worlds[i];
            Defers(w.cycles[c], j, user) <==>
              && user in w.cycles[c].users
              && j in w.jobs && w.jobs[j].ingestedAt < w.cycles[c].completedAt
              && !(w.jobs[j].extraction.Some? && w.jobs[j].extraction.value.visible < w.cycles[c].completedAt)
              && FirstCycleFrom(w.cycles, w.jobs[j].ingestedAt, c)
  {
    RunInv(worlds, steps, i);
    var w := worlds[i];
    assert SawThen(w, c, j);
    WatermarkIsLast(w.cycles[..c]);
    assert c > 0 ==> w.cycles[..c][c - 1] == w.cycles[c - 1];
  }

  /** No job is offered to anyone by two different watermark-driven cycles. */
  lemma RecalledAtMostOnce(worlds: seq<World>, steps: seq<Step>, i: nat, c: nat, d: nat, j: Id, u: Id, v: Id)
    requires IsRun(worlds, steps) && Initial(worlds[0]) && i < |worlds|
    requires c < |worlds[i].cycles| && ByWatermark(worlds[i].cycles[c]) && Recalls(worlds[i].cycles[c], j, u)
    requires d < |worlds[i].cycles| && ByWatermark(worlds[i].cycles[d]) && Recalls(worlds[i].cycles[d], j, v)
    ensures c == d
  {
    RecallExactly(worlds, steps, i, c, j, u);
    RecallExactly(worlds, steps, i, d, j, v);
  }

  ghost predicate RecalledForUser(w: World, j: Id, user: Id) {
    exists c :: 0 <= c < |w.cycles| && ByWatermark(w.cycles[c]) && Recalls(w.cycles[c], j, user)
  }

  /**
   The two-cycle promise, with the exact condition under which it is kept for a user: the first cycle
   to complete from the extraction's stamp on must be watermark-driven, must have the user in it, and
   must come after the extraction is visible. A dirty cycle, a cycle with a `since` override, a cycle
   restricted to other users or with no users, or any cycle that completes between the stamp and the
   commit, takes the watermark past the job for good.
   */
  lemma RecalledIff(worlds: seq<World>, steps: seq<Step>, i: nat, j: Id, user: Id, f: nat)
    requires IsRun(worlds, steps) && Initial(worlds[0]) && i < |worlds|
    requires j in worlds[i].jobs && worlds[i].jobs[j].extraction.Some?
    requires FirstCycleFrom(worlds[i].cycles, worlds[i].jobs[j].extraction.value.stamp, f)
    ensures var w := worlds[i];
            RecalledForUser(w, j, user) <==>
              && ByWatermark(w.cycles[f])
              && user in w.cycles[f].users
              && w.jobs[j].extraction.value.visible < w.cycles[f].completedAt
  {
    var w := worlds[i];
    forall c | 0 <= c < |w.cycles| && ByWatermark(w.cycles[c])
      ensures Recalls(w.cycles[c], j, user) <==>
                c == f && user in w.cycles[f].users && w.jobs[j].extraction.value.visible < w.cycles[f].completedAt
    {
      RecallExactly(worlds, steps, i, c, j, user);
    }
  }

  /** Every cycle so far was an ordinary one for this user. */
  predicate OrdinaryFor(w: World, user: Id) {
    forall k :: 0 <= k < |w.cycles| ==> ByWatermark(w.cycles[k]) && user in w.cycles[k].users
  }

  /**
   In a run of ordinary cycles, failed cycles, ingests, re-ingests and extractions, a job whose
   extraction became visible when it was stamped is recalled for the user by exactly one completed
   cycle: the first one after its extraction.
   */
  lemma OrdinaryRunsRecallOnce(worlds: seq<World>, steps: seq<Step>, i: nat, j: Id, user: Id, f: nat)
    requires IsRun(worlds, steps) && Initial(worlds[0]) && i < |worlds|
    requires OrdinaryFor(worlds[i], user)
    requires j in worlds[i].jobs && worlds[i].jobs[j].extraction.Some?
    requires worlds[i].jobs[j].extraction.value.stamp == worlds[i].jobs[j].extraction.value.visible
    requires FirstCycleFrom(worlds[i].cycles, worlds[i].jobs[j].extraction.value.stamp, f)
    ensures forall c :: 0 <= c < |worlds[i].cycles| ==> (Recalls(worlds[i].cycles[c], j, user) <==> c == f)
  {
    RunInv(worlds, steps, i);
    forall c | 0 <= c < |worlds[i].cycles|
      ensures Recalls(worlds[i].cycles[c], j, user) <==> c == f
    {
      RecallExactly(worlds, steps, i, c, j, user);
    }
  }

  /** A dirty cycle offers its users every job whose extraction is visible to it, whatever the watermark. */
  lemma DirtyRecallsEverything(worlds: seq<World>, steps: seq<Step>, i: nat, c: nat, j: Id, user: Id)
    requires IsRun(worlds, steps) && Initial(worlds[0]) && i < |worlds|
    requires c < |worlds[i].cycles| && worlds[i].cycles[c].mode == Dirty
    ensures var w := worlds[i];
            Recalls(w.cycles[c], j, user) <==>
              && user in w.cycles[c].users
              && j in w.jobs && w.jobs[j].extraction.Some?
              && w.jobs[j].extraction.value.visible < w.cycles[c].completedAt
  {
    RunInv(worlds, steps, i);
    assert SawThen(worlds[i], c, j);
  }

  /**
   Two runs that lose job 0 for user 0. In the first a cycle completes between the extraction's stamp
   and its commit; in the second a cycle with no users does, after the commit.
   */
  lemma JobsCanBeLost()
    ensures var w0 := World(0, map[], []);
            var w1 := Next(w0, Ingest(0));
            var w2 := Next(w1, CompleteCycle(Incremental, None, {0}));
            && Enabled(w2, Extract(0, 2))
            && var w3 := Next(w2, Extract(0, 2));
            var w4 := Next(w3, CompleteCycle(Incremental, None, {0}));
            !RecalledForUser(w4, 0, 0)
    ensures var w0 := World(0, map[], []);
            var w1 := Next(w0, Ingest(0));
            && Enabled(w1, Extract(0, 2))
            && var w2 := Next(w1, Extract(0, 2));
            var w3 := Next(w2, CompleteCycle(Incremental, None, {}));
            var w4 := Next(w3, CompleteCycle(Incremental, None, {0}));
            !RecalledForUser(w4, 0, 0)
  {
    var first := Cycle(Incremental, None, {0}, 2, None, map[0 := Job(1, None)]);
    assert [first][..0] == [];
    var empty := Cycle(Incremental, None, {}, 3, None, map[0 := Job(1, Some(Extraction(2, 2)))]);
    assert [empty][..0] == [];
  }
}
