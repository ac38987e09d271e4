/**
 Runs of the generate/verify loop under at-least-once delivery.

 A world holds the committed tables, the tasks waiting for delivery (any of them may be delivered
 next, and again after it has been handled), the responses given so far and the accepted requests.
 Each generate or verify transaction is one atomic step: nothing in the schema stops two
 interleaved ones from both inserting.
 */
module ResumeRuns {
  import opened Wrappers
  import Seqs
  import opened ResumeTables
  import opened Generate
  import opened Verify

  datatype Response = Response(task: Task, action: Action)

  /** One accepted generate request; `paid` when its own transaction (the quota decrement) committed. */
  datatype Request = Request(matchId: Id, userId: Id, paid: bool)

  datatype World = World(db: Db, pending: seq<Task>, responses: seq<Response>, requests: seq<Request>)

  /** Everything outside the tables that one delivery depends on. */
  datatype Outside = Outside(generated: LlmCall<()>, newId: Id, checks: Checks, latest: Option<Id>)

  /** Where a delivery stops. Only Handled flushes; `acked` says the queue saw the 2xx and drops the task. */
  datatype Fate = CrashBeforeCommit | CrashBeforeFlush | Handled(acked: bool)

  datatype Step =
    | Trigger(matchId: Id, commits: bool)
    | Deliver(index: nat, outside: Outside, fate: Fate)
    | GiveUp(index: nat)

  /** The transaction of one delivery. */
  function Handle(db: Db, task: Task, outside: Outside): TxEnd
    requires HandleReady(db, task, outside)
  {
    match task
    case GenerateTask(_, _, _, _) => GenerateResume(db, task, outside.generated, outside.newId)
    case VerifyTask(_, _, _) => VerifyResume(db, task, outside.checks, outside.latest)
  }

  predicate HandleReady(db: Db, task: Task, outside: Outside) {
    && outside.newId !in db.generations
    && (task.VerifyTask? ==> LatestIsOfMatch(db, task, outside.latest))
  }

  predicate Enabled(w: World, s: Step) {
    match s
    case Trigger(m, _) => true
    case Deliver(i, outside, _) => i < |w.pending| && HandleReady(w.db, w.pending[i], outside)
    case GiveUp(i) => i < |w.pending|
  }

  function Without(tasks: seq<Task>, i: nat): seq<Task>
    requires i < |tasks|
  {
    tasks[..i] + tasks[i + 1..]
  }

  /** try_consume_quota finds a row to decrement: a quota that is set and positive. */
  predicate HasQuota(db: Db, user: Id) {
    user in db.quota && db.quota[user].Some? && db.quota[user].value > 0
  }

  function ConsumeQuota(db: Db, user: Id): Db
    requires HasQuota(db, user)
  {
    db.(quota := db.quota[user := Some(db.quota[user].value - 1)])
  }

  /**
   trigger_generate puts the task on the real queue inside its transaction, so the task is out
   even when the commit of the quota decrement then fails.
   */
  function TriggerGenerate(w: World, m: Id, commits: bool): World {
    if m !in w.db.matches || GenerationsOf(w.db, m) != {} || !HasQuota(w.db, w.db.matches[m].userId) then w
    else
      var user := w.db.matches[m].userId;
      w.(db := if commits then ConsumeQuota(w.db, user) else w.db,
         pending := w.pending + [GenerateTask(Parsed(m), NoAttempt, [], None)],
         requests := w.requests + [Request(m, user, commits)])
  }

  /** A delivery whose transaction ended in `end` and reached its commit. */
  function Delivered(w: World, i: nat, end: TxEnd, fate: Fate): World
    requires i < |w.pending|
  {
    match end
    case Raised(db) => w.(db := db)  // committed event, 503, nothing flushed, task kept
    case Done(db, enqueued, action) =>
      if !fate.Handled? then w.(db := db)
      else w.(db := db,
              pending := (if fate.acked then Without(w.pending, i) else w.pending) + enqueued,
              responses := w.responses + [Response(w.pending[i], action)])
  }

  function DeliverTask(w: World, i: nat, outside: Outside, fate: Fate): World
    requires i < |w.pending| && HandleReady(w.db, w.pending[i], outside)
  {
    if fate.CrashBeforeCommit? then w else Delivered(w, i, Handle(w.db, w.pending[i], outside), fate)
  }

  function Next(w: World, s: Step): World
    requires Enabled(w, s)
  {
    match s
    case Trigger(m, commits) => TriggerGenerate(w, m, commits)
    case Deliver(i, outside, fate) => DeliverTask(w, i, outside, fate)
    case GiveUp(i) => w.(pending := Without(w.pending, i))
  }

  ghost predicate IsRun(worlds: seq<World>, steps: seq<Step>) {
    && |worlds| == |steps| + 1
    && forall i :: 0 <= i < |steps| ==> Enabled(worlds[i], steps[i]) && worlds[i + 1] == Next(worlds[i], steps[i])
  }

  /** Nothing has been requested yet. */
  predicate Initial(w: World) {
    && w.db.generations == map[]
    && w.pending == [] && w.responses == [] && w.requests == []
    && (forall u :: u in w.db.quota && w.db.quota[u].Some? ==> w.db.quota[u].value >= 0)
  }

  // ---------------------------------------------------------------- invariant

  predicate RequestedMatch(requests: seq<Request>, m: Id) {
    exists i :: 0 <= i < |requests| && requests[i].matchId == m
  }

  predicate GenerationOk(db: Db, requests: seq<Request>, g: Id)
    requires g in db.generations
  {
    var row := db.generations[g];
    && row.matchId in db.matches
    && row.attempt in {1, 2}
    && RequestedMatch(requests, row.matchId)
    && (row.status == Some(Failed) ==> row.attempt == 1)
    && (row.attempt == 2 ==>
          exists first :: first in db.generations && IsFailedFirst(db.generations[first], row.matchId))
  }

  predicate IsFailedFirst(row: Generation, m: Id) {
    row.matchId == m && row.attempt == 1 && row.status == Some(Failed)
  }

  predicate OnePerAttempt(db: Db) {
    forall g, h :: (g in db.generations && h in db.generations
                    && db.generations[g].matchId == db.generations[h].matchId
                    && db.generations[g].attempt == db.generations[h].attempt) ==> g == h
  }

  /** A task on the queue names rows that are already committed. */
  predicate TaskOk(db: Db, requests: seq<Request>, task: Task) {
    match task
    case GenerateTask(m, attempt, violations, prior) =>
      && m.Parsed? && m.id in db.matches
      && RequestedMatch(requests, m.id)
      && (attempt == NoAttempt
          || (attempt == AttemptValue(2) && prior.Some? && prior.value in db.generations
              && IsFailedFirst(db.generations[prior.value], m.id)
              && db.generations[prior.value].failures == violations))
    case VerifyTask(m, g, attempt) =>
      && m.Parsed? && m.id in db.matches
      && g.Parsed? && g.id in db.generations
      && db.generations[g.id].matchId == m.id
      && attempt == AttemptValue(db.generations[g.id].attempt)
  }

  ghost predicate Inv(w: World) {
    && (forall g :: g in w.db.generations ==> GenerationOk(w.db, w.requests, g))
    && OnePerAttempt(w.db)
    && (forall i :: 0 <= i < |w.pending| ==> TaskOk(w.db, w.requests, w.pending[i]))
    && (forall i :: 0 <= i < |w.requests| ==>
          w.requests[i].matchId in w.db.matches
          && w.db.matches[w.requests[i].matchId].userId == w.requests[i].userId)
    && (forall i :: 0 <= i < |w.responses| ==> w.responses[i].action != NotFound
                                               || OwnRowsPresent(w.db, w.responses[i].task))
  }

  /** The match (and for verify the generation) that a task names exists. */
  predicate OwnRowsPresent(db: Db, task: Task) {
    match task
    case GenerateTask(m, _, _, _) => m.Parsed? && m.id in db.matches
    case VerifyTask(m, g, _) => m.Parsed? && m.id in db.matches && g.Parsed? && g.id in db.generations
  }

  /** Rows only ever gain a status: none disappears, none moves, and a status once set stays. */
  ghost predicate Grows(before: Db, after: Db) {
    && after.matches == before.matches && after.jobs == before.jobs && after.profiles == before.profiles
    && after.quota.Keys == before.quota.Keys
    && forall g :: g in before.generations ==>
         && g in after.generations
         && after.generations[g].matchId == before.generations[g].matchId
         && after.generations[g].attempt == before.generations[g].attempt
         && (before.generations[g].status.Some? ==> after.generations[g] == before.generations[g])
  }

  lemma OneRowCounts(db: Db, m: Id, g: Id)
    requires g in GenerationsOf(db, m)
    ensures |GenerationsOf(db, m)| >= 1
  {
  }

  lemma TwoRowsCount(db: Db, m: Id, g: Id, h: Id)
    requires g != h && g in GenerationsOf(db, m) && h in GenerationsOf(db, m)
    ensures |GenerationsOf(db, m)| >= 2
  {
    assert {g, h} <= GenerationsOf(db, m);
    Seqs.SubsetCard({g, h}, GenerationsOf(db, m));
  }

  /** A task that names committed rows goes on naming them when the tables only grow. */
  lemma TaskStaysOk(before: Db, after: Db, requests: seq<Request>, task: Task)
    requires Grows(before, after)
    requires TaskOk(before, requests, task)
    ensures TaskOk(after, requests, task)
  {
  }

  lemma GrowsKeepsRest(w: World, after: Db)
    requires Inv(w) && Grows(w.db, after)
    ensures forall i :: 0 <= i < |w.pending| ==> TaskOk(after, w.requests, w.pending[i])
    ensures forall i :: 0 <= i < |w.responses| ==> w.responses[i].action != NotFound
                                                   || OwnRowsPresent(after, w.responses[i].task)
  {
    forall i | 0 <= i < |w.pending|
      ensures TaskOk(after, w.requests, w.pending[i])
    {
      TaskStaysOk(w.db, after, w.requests, w.pending[i]);
    }
  }

  /** The count gate admits an attempt only when the match has no row for it yet. */
  lemma GateMeansNew(w: World, task: Task, g: Id)
    requires Inv(w) && task.GenerateTask? && TaskOk(w.db, w.requests, task)
    requires |GenerationsOf(w.db, task.matchId.id)| < PayloadAttempt(task.attempt)
    requires g in GenerationsOf(w.db, task.matchId.id)
    ensures w.db.generations[g].attempt != PayloadAttempt(task.attempt)
  {
    var m := task.matchId.id;
    OneRowCounts(w.db, m, g);
    var first := task.prior.value;
    assert first in GenerationsOf(w.db, m);
    if w.db.generations[g].attempt == 2 {
      TwoRowsCount(w.db, m, g, first);
    }
  }

  /** A row that was right stays right when the tables only grow, if it does not turn failed past attempt 1. */
  lemma RowStaysOk(before: Db, after: Db, requests: seq<Request>, g: Id)
    requires Grows(before, after) && g in before.generations && GenerationOk(before, requests, g)
    requires after.generations[g].status == Some(Failed) ==> before.generations[g].attempt == 1
    ensures GenerationOk(after, requests, g)
  {
    if before.generations[g].attempt == 2 {
      var first :| first in before.generations
                   && IsFailedFirst(before.generations[first], before.generations[g].matchId);
      assert IsFailedFirst(after.generations[first], after.generations[g].matchId);
    }
  }

  /** What every transaction keeps of the rows. */
  ghost predicate RowsKept(w: World, after: Db) {
    && Grows(w.db, after)
    && (forall g :: g in after.generations ==> GenerationOk(after, w.requests, g))
    && OnePerAttempt(after)
  }

  /** What every delivered transaction keeps: the rows, the quota, and that its tasks find their rows. */
  ghost predicate TxKeeps(w: World, task: Task, end: TxEnd) {
    && RowsKept(w, end.db)
    && end.db.quota == w.db.quota
    && (end.Done? ==> (forall t :: t in end.enqueued ==> TaskOk(end.db, w.requests, t))
                      && (end.action == NotFound ==> OwnRowsPresent(end.db, task)))
  }

  /** Inserting past the gate keeps one row per attempt. */
  lemma InsertKeepsOnePerAttempt(w: World, newId: Id, row: Generation, after: Db)
    requires Inv(w) && newId !in w.db.generations
    requires after.generations == w.db.generations[newId := row]
    requires forall g :: g in GenerationsOf(w.db, row.matchId) ==> w.db.generations[g].attempt != row.attempt
    ensures OnePerAttempt(after)
  {
    assert forall g :: g in w.db.generations && w.db.generations[g].matchId == row.matchId ==>
             g in GenerationsOf(w.db, row.matchId);
  }

  lemma NewRowOk(w: World, task: Task, newId: Id, after: Db)
    requires task.GenerateTask? && TaskOk(w.db, w.requests, task) && Grows(w.db, after)
    requires PayloadAttempt(task.attempt) <= MAX_ATTEMPT && newId in after.generations
    requires after.generations[newId] == Generation(task.matchId.id, PayloadAttempt(task.attempt), None, [])
    ensures GenerationOk(after, w.requests, newId)
  {
    if task.attempt != NoAttempt {
      assert IsFailedFirst(after.generations[task.prior.value], task.matchId.id);
    }
  }

  lemma InsertKeeps(w: World, task: Task, newId: Id, after: Db)
    requires Inv(w) && task.GenerateTask? && TaskOk(w.db, w.requests, task)
    requires newId !in w.db.generations
    requires |GenerationsOf(w.db, task.matchId.id)| < PayloadAttempt(task.attempt)
    requires after == w.db.(events := after.events,
                            generations := w.db.generations[newId :=
                              Generation(task.matchId.id, PayloadAttempt(task.attempt), None, [])])
    ensures RowsKept(w, after)
  {
    forall g | g in GenerationsOf(w.db, task.matchId.id)
      ensures w.db.generations[g].attempt != PayloadAttempt(task.attempt)
    {
      GateMeansNew(w, task, g);
    }
    InsertKeepsOnePerAttempt(w, newId, Generation(task.matchId.id, PayloadAttempt(task.attempt), None, []), after);
    InsertGrows(w.db, newId, after);
    NewRowOk(w, task, newId, after);
    forall g | g in after.generations
      ensures GenerationOk(after, w.requests, g)
    {
      if g != newId {
        assert GenerationOk(w.db, w.requests, g);
        RowStaysOk(w.db, after, w.requests, g);
      }
    }
  }

  lemma InsertGrows(before: Db, newId: Id, after: Db)
    requires newId !in before.generations && newId in after.generations
    requires after == before.(events := after.events,
                              generations := before.generations[newId := after.generations[newId]])
    ensures Grows(before, after)
  {
  }

  lemma SameRowsKeep(w: World, after: Db)
    requires Inv(w) && after == w.db.(events := after.events)
    ensures RowsKept(w, after)
  {
    forall g | g in after.generations
      ensures GenerationOk(after, w.requests, g)
    {
      assert GenerationOk(w.db, w.requests, g);
      RowStaysOk(w.db, after, w.requests, g);
    }
  }

  /** One generate transaction: at most one insert, and only of an attempt the match did not have. */
  lemma GenerateKeeps(w: World, task: Task, llm: LlmCall<()>, newId: Id)
    requires Inv(w) && task.GenerateTask? && TaskOk(w.db, w.requests, task)
    requires newId !in w.db.generations
    ensures TxKeeps(w, task, GenerateResume(w.db, task, llm, newId))
  {
    var end := GenerateResume(w.db, task, llm, newId);
    GenerateEnds(w.db, task, llm, newId);
    if end.Done? && end.action == Generated {
      InsertKeeps(w, task, newId, end.db);
    } else {
      SameRowsKeep(w, end.db);
    }
  }

  /** A generate transaction inserts its row past the gate, or leaves all rows alone. */
  lemma GenerateEnds(db: Db, task: Task, llm: LlmCall<()>, newId: Id)
    requires task.GenerateTask? && task.matchId.Parsed?
    ensures var end := GenerateResume(db, task, llm, newId);
            var m, attempt := task.matchId.id, PayloadAttempt(task.attempt);
            if end.Done? && end.action == Generated then
              && |GenerationsOf(db, m)| < attempt <= MAX_ATTEMPT
              && end.db == db.(events := end.db.events,
                               generations := db.generations[newId := Generation(m, attempt, None, [])])
              && end.enqueued == [VerifyTask(Parsed(m), Parsed(newId), AttemptValue(attempt))]
            else end.db == db.(events := end.db.events) && (end.Done? ==> end.enqueued == [])
  {
  }

  /** The only row a verify transaction can change is its target, and only by giving it a status. */
  ghost predicate OnlyDecides(before: Db, end: TxEnd, g: Id)
    requires g in before.generations
  {
    && TouchesOnly(before, g, end)
    && (before.generations[g].status.Some? ==> end.db.generations[g] == before.generations[g])
    && (end.db.generations[g].status == Some(Failed) ==>
          before.generations[g].status == Some(Failed) || before.generations[g].attempt < MAX_ATTEMPT)
    && (end.Done? ==>
          end.enqueued == []
          || (end.db.generations[g].status == Some(Failed) && before.generations[g].attempt < MAX_ATTEMPT
              && end.enqueued == [GenerateTask(Parsed(before.generations[g].matchId),
                                               AttemptValue(before.generations[g].attempt + 1),
                                               end.db.generations[g].failures, Some(g))]))
  }

  lemma GraphOnlyDecides(db: Db, g: Id, checks: Checks, end: TxEnd)
    requires g in db.generations && db.generations[g].status.None?
    requires GraphEnds(db, g, db.generations[g].attempt, checks, end)
    ensures OnlyDecides(db, end, g)
  {
  }

  lemma UnchangedOnlyDecides(db: Db, g: Id, end: TxEnd)
    requires g in db.generations && end.db == db.(events := end.db.events)
    requires end.Done? ==> end.enqueued == []
    ensures OnlyDecides(db, end, g)
  {
  }

  /** A verify task that names committed rows either leaves all rows alone or runs the graph on its own. */
  lemma VerifyReaches(db: Db, requests: seq<Request>, task: Task, checks: Checks, latest: Option<Id>)
    requires task.VerifyTask? && TaskOk(db, requests, task)
    requires db.generations[task.generationId.id].attempt >= 1
    requires LatestIsOfMatch(db, task, latest)
    ensures var g := task.generationId.id;
            var row := db.generations[g];
            var end := VerifyResume(db, task, checks, latest);
            || (row.status.None? && end == RunGraph(db, g, db.matches[row.matchId], row.attempt, checks))
            || (end.Done? && end.db == db.(events := end.db.events) && end.enqueued == []
                && (end.action == NotFound || row.status.Some?))
  {
    var row := db.generations[task.generationId.id];
    assert VerifyAttempt(task.attempt, row) == row.attempt;
  }

  lemma VerifyOnlyDecides(db: Db, requests: seq<Request>, task: Task, checks: Checks, latest: Option<Id>)
    requires task.VerifyTask? && TaskOk(db, requests, task)
    requires db.generations[task.generationId.id].attempt >= 1
    requires LatestIsOfMatch(db, task, latest)
    ensures OnlyDecides(db, VerifyResume(db, task, checks, latest), task.generationId.id)
  {
    var g := task.generationId.id;
    var row := db.generations[g];
    VerifyReaches(db, requests, task, checks, latest);
    var end := VerifyResume(db, task, checks, latest);
    if row.status.None? && end == RunGraph(db, g, db.matches[row.matchId], row.attempt, checks) {
      GraphDecision(db, g, db.matches[row.matchId], row.attempt, checks);
      GraphOnlyDecides(db, g, checks, end);
    } else {
      UnchangedOnlyDecides(db, g, end);
    }
  }

  lemma DecidingKeepsOnePerAttempt(before: Db, end: TxEnd, g: Id)
    requires OnePerAttempt(before) && g in before.generations && OnlyDecides(before, end, g)
    ensures OnePerAttempt(end.db) && Grows(before, end.db)
  {
    forall h | h in before.generations
      ensures end.db.generations[h].matchId == before.generations[h].matchId
      ensures end.db.generations[h].attempt == before.generations[h].attempt
    {
    }
  }

  /** The regenerate task of a decision names the row that has just failed. */
  lemma RegenerateOk(w: World, end: TxEnd, g: Id)
    requires g in w.db.generations && GenerationOk(w.db, w.requests, g) && OnlyDecides(w.db, end, g) && end.Done?
    ensures forall t :: t in end.enqueued ==> TaskOk(end.db, w.requests, t)
  {
  }

  lemma DecidedRowsOk(w: World, end: TxEnd, g: Id, h: Id)
    requires g in w.db.generations && h in w.db.generations && OnlyDecides(w.db, end, g) && Grows(w.db, end.db)
    requires GenerationOk(w.db, w.requests, g) && GenerationOk(w.db, w.requests, h)
    ensures GenerationOk(end.db, w.requests, h)
  {
    RowStaysOk(w.db, end.db, w.requests, h);
  }

  /** One verify transaction: at most one row gains a status, and a first failure enqueues attempt 2. */
  lemma DecidingKeeps(w: World, end: TxEnd, g: Id)
    requires Inv(w) && g in w.db.generations && OnlyDecides(w.db, end, g)
    ensures RowsKept(w, end.db)
    ensures end.Done? ==> forall t :: t in end.enqueued ==> TaskOk(end.db, w.requests, t)
  {
    assert GenerationOk(w.db, w.requests, g);
    DecidingKeepsOnePerAttempt(w.db, end, g);
    if end.Done? {
      RegenerateOk(w, end, g);
    }
    forall h | h in end.db.generations
      ensures GenerationOk(end.db, w.requests, h)
    {
      assert GenerationOk(w.db, w.requests, h);
      DecidedRowsOk(w, end, g, h);
    }
  }

  lemma VerifyKeeps(w: World, task: Task, checks: Checks, latest: Option<Id>)
    requires Inv(w) && task.VerifyTask? && TaskOk(w.db, w.requests, task)
    requires LatestIsOfMatch(w.db, task, latest)
    ensures TxKeeps(w, task, VerifyResume(w.db, task, checks, latest))
  {
    var g := task.generationId.id;
    assert GenerationOk(w.db, w.requests, g);
    VerifyOnlyDecides(w.db, w.requests, task, checks, latest);
    DecidingKeeps(w, VerifyResume(w.db, task, checks, latest), g);
  }

  lemma HandleKeeps(w: World, task: Task, outside: Outside)
    requires Inv(w) && TaskOk(w.db, w.requests, task) && HandleReady(w.db, task, outside)
    ensures TxKeeps(w, task, Handle(w.db, task, outside))
  {
    if task.GenerateTask? {
      GenerateKeeps(w, task, outside.generated, outside.newId);
    } else {
      VerifyKeeps(w, task, outside.checks, outside.latest);
    }
  }

  lemma TriggerKeeps(w: World, m: Id, commits: bool)
    requires Inv(w)
    ensures Inv(TriggerGenerate(w, m, commits))
    ensures Grows(w.db, TriggerGenerate(w, m, commits).db)
  {
    var w' := TriggerGenerate(w, m, commits);
    if w' != w {
      assert w'.requests[|w.requests|].matchId == m;
      forall k | RequestedMatch(w.requests, k)
        ensures RequestedMatch(w'.requests, k)
      {
        var i :| 0 <= i < |w.requests| && w.requests[i].matchId == k;
        assert w'.requests[i].matchId == k;
      }
      forall g | g in w'.db.generations
        ensures GenerationOk(w'.db, w'.requests, g)
      {
        assert GenerationOk(w.db, w.requests, g);
      }
      forall i | 0 <= i < |w'.pending|
        ensures TaskOk(w'.db, w'.requests, w'.pending[i])
      {
        if i < |w.pending| {
          assert TaskOk(w.db, w.requests, w.pending[i]);
        }
      }
    }
  }

  lemma DeliverKeeps(w: World, i: nat, outside: Outside, fate: Fate)
    requires Inv(w) && i < |w.pending| && HandleReady(w.db, w.pending[i], outside)
    ensures Inv(DeliverTask(w, i, outside, fate))
    ensures Grows(w.db, DeliverTask(w, i, outside, fate).db)
  {
    var end := Handle(w.db, w.pending[i], outside);
    HandleKeeps(w, w.pending[i], outside);
    GrowsKeepsRest(w, end.db);
    var w' := DeliverTask(w, i, outside, fate);
    forall k | 0 <= k < |w'.pending|
      ensures TaskOk(w'.db, w'.requests, w'.pending[k])
    {
      assert w'.pending[k] in w.pending || (end.Done? && w'.pending[k] in end.enqueued);
    }
  }

  /** Every step keeps the invariant and only grows the tables. */
  lemma StepKeeps(w: World, s: Step)
    requires Inv(w) && Enabled(w, s)
    ensures Inv(Next(w, s)) && Grows(w.db, Next(w, s).db)
  {
    match s
    case Trigger(m, commits) => TriggerKeeps(w, m, commits);
    case GiveUp(i) =>
    case Deliver(i, outside, fate) => DeliverKeeps(w, i, outside, fate);
  }

  // ---------------------------------------------------------------- whole runs

  lemma InitialInv(w: World)
    requires Initial(w)
    ensures Inv(w)
  {
  }

  /** Along a run the invariant holds in every world. */
  lemma {:induction false} RunInv(worlds: seq<World>, steps: seq<Step>, i: nat)
    requires IsRun(worlds, steps) && Initial(worlds[0]) && i < |worlds|
    ensures Inv(worlds[i])
  {
    if i == 0 {
      InitialInv(worlds[0]);
    } else {
      RunInv(worlds, steps, i - 1);
      StepKeeps(worlds[i - 1], steps[i - 1]);
    }
  }

  /**
   Rows written by world i are there in every later world j, unmoved; a verify status is written
   once and, once written, never changes (nor do its failures).
   */
  lemma {:induction false} StatusSetOnce(worlds: seq<World>, steps: seq<Step>, i: nat, j: nat)
    requires IsRun(worlds, steps) && Initial(worlds[0]) && i <= j < |worlds|
    ensures Grows(worlds[i].db, worlds[j].db)
    decreases j
  {
    if i < j {
      StatusSetOnce(worlds, steps, i, j - 1);
      RunInv(worlds, steps, j - 1);
      StepKeeps(worlds[j - 1], steps[j - 1]);
    }
  }

  /** The generations of one match with one attempt number. */
  function AttemptRows(db: Db, m: Id, attempt: nat): set<Id> {
    set g | g in GenerationsOf(db, m) && db.generations[g].attempt == attempt
  }

  lemma AtMostOne<T>(s: set<T>)
    requires forall x, y :: x in s && y in s ==> x == y
    ensures |s| <= 1
  {
    if s != {} {
      var x :| x in s;
      assert s == {x};
    }
  }

  /**
   In every world of every run a match has at most one attempt-1 row, at most one attempt-2 row and
   no other; and attempt 2 exists only beside an attempt-1 row verified `failed`.
   */
  lemma TwoAttemptsAtMost(worlds: seq<World>, steps: seq<Step>, i: nat, m: Id)
    requires IsRun(worlds, steps) && Initial(worlds[0]) && i < |worlds|
    ensures var db := worlds[i].db;
            && |AttemptRows(db, m, 1)| <= 1
            && |AttemptRows(db, m, 2)| <= 1
            && GenerationsOf(db, m) == AttemptRows(db, m, 1) + AttemptRows(db, m, 2)
            && (AttemptRows(db, m, 2) != {} ==>
                  exists first :: AttemptRows(db, m, 1) == {first} && db.generations[first].status == Some(Failed))
  {
    RunInv(worlds, steps, i);
    var db := worlds[i].db;
    AtMostOne(AttemptRows(db, m, 1));
    AtMostOne(AttemptRows(db, m, 2));
    forall g | g in GenerationsOf(db, m)
      ensures g in AttemptRows(db, m, 1) + AttemptRows(db, m, 2)
    {
      assert GenerationOk(db, worlds[i].requests, g);
    }
    if AttemptRows(db, m, 2) != {} {
      var second :| second in AttemptRows(db, m, 2);
      assert GenerationOk(db, worlds[i].requests, second);
      var first :| first in db.generations && IsFailedFirst(db.generations[first], m);
      assert first in AttemptRows(db, m, 1);
      assert AttemptRows(db, m, 1) == {first};
    }
  }

  /** How many of a user's accepted requests were paid for. */
  function Paid(requests: seq<Request>, user: Id): nat {
    if requests == [] then 0
    else Paid(requests[..|requests| - 1], user)
         + (if requests[|requests| - 1].userId == user && requests[|requests| - 1].paid then 1 else 0)
  }

  /** Of a user's accepted requests, all that count towards the quota ledger. */
  ghost predicate Ledger(start: World, w: World, user: Id) {
    && (user in w.db.quota <==> user in start.db.quota)
    && (user in w.db.quota ==>
          (w.db.quota[user].Some? <==> start.db.quota[user].Some?)
          && (w.db.quota[user].Some? ==>
                w.db.quota[user].value >= 0
                && start.db.quota[user].value == w.db.quota[user].value + Paid(w.requests, user)))
    && (user !in w.db.quota || w.db.quota[user].None? ==> Paid(w.requests, user) == 0)
  }

  /** Only a trigger that is accepted touches quota or the request list. */
  lemma DeliveryKeepsQuota(w: World, i: nat, outside: Outside, fate: Fate)
    requires Inv(w) && i < |w.pending| && HandleReady(w.db, w.pending[i], outside)
    ensures DeliverTask(w, i, outside, fate).db.quota == w.db.quota
    ensures DeliverTask(w, i, outside, fate).requests == w.requests
  {
    HandleKeeps(w, w.pending[i], outside);
  }

  lemma LedgerKeeps(start: World, w: World, s: Step, user: Id)
    requires Inv(w) && Enabled(w, s) && Ledger(start, w, user)
    ensures Ledger(start, Next(w, s), user)
  {
    match s
    case Trigger(m, commits) =>
      var w' := TriggerGenerate(w, m, commits);
      if w' != w {
        assert w'.requests[..|w'.requests| - 1] == w.requests;
      }
    case GiveUp(_) =>
    case Deliver(i, outside, fate) => DeliveryKeepsQuota(w, i, outside, fate);
  }

  /**
   Conservation: at every point of every run the initial quota is the remaining quota plus the
   accepted requests whose own transaction committed, and it never goes below zero. A user without
   a quota row, or with a NULL quota, is never charged and never accepted.
   */
  lemma {:induction false} QuotaConserved(worlds: seq<World>, steps: seq<Step>, i: nat, user: Id)
    requires IsRun(worlds, steps) && Initial(worlds[0]) && i < |worlds|
    ensures Ledger(worlds[0], worlds[i], user)
  {
    if i > 0 {
      QuotaConserved(worlds, steps, i - 1, user);
      RunInv(worlds, steps, i - 1);
      LedgerKeeps(worlds[0], worlds[i - 1], steps[i - 1], user);
    }
  }

  /**
   No delivered generate or verify task is ever answered `not_found` for its own match or
   generation: by the time a task is out, the rows it names are committed.
   */
  lemma DispatchedTasksFindTheirRows(worlds: seq<World>, steps: seq<Step>, i: nat)
    requires IsRun(worlds, steps) && Initial(worlds[0]) && i < |worlds|
    ensures forall k :: 0 <= k < |worlds[i].pending| ==> OwnRowsPresent(worlds[i].db, worlds[i].pending[k])
    ensures forall k :: 0 <= k < |worlds[i].responses| && worlds[i].responses[k].action == NotFound ==>
              OwnRowsPresent(worlds[i].db, worlds[i].responses[k].task)
  {
    RunInv(worlds, steps, i);
    var w := worlds[i];
    forall k | 0 <= k < |w.pending|
      ensures OwnRowsPresent(w.db, w.pending[k])
    {
      assert TaskOk(w.db, w.requests, w.pending[k]);
    }
  }

  /** A delivery that crashes before its commit, or raises RetryableLLMError, dispatches nothing. */
  lemma FailedDeliveryDispatchesNothing(w: World, i: nat, outside: Outside, fate: Fate)
    requires i < |w.pending| && HandleReady(w.db, w.pending[i], outside)
    requires !fate.Handled? || Handle(w.db, w.pending[i], outside).Raised?
    ensures DeliverTask(w, i, outside, fate).pending == w.pending
    ensures fate.CrashBeforeCommit? ==> DeliverTask(w, i, outside, fate) == w
    ensures Handle(w.db, w.pending[i], outside).Raised? ==>
              DeliverTask(w, i, outside, fate).db.generations == w.db.generations
  {
    if Handle(w.db, w.pending[i], outside).Raised? && w.pending[i].VerifyTask? {
      var task := w.pending[i];
      var target := TargetGeneration(w.db, task, outside.latest);
      if target.Some? && w.db.generations[target.value].status.None? {
        var row := w.db.generations[target.value];
        GraphDecision(w.db, target.value, w.db.matches[row.matchId], VerifyAttempt(task.attempt, row), outside.checks);
      }
    }
  }

  // ---------------------------------------------------------------- paid work

  function RequestsByUser(requests: seq<Request>, user: Id): set<Id> {
    set i | 0 <= i < |requests| && requests[i].userId == user
  }

  function UsersGenerations(db: Db, user: Id): set<Id> {
    set g | g in db.generations && db.generations[g].matchId in db.matches
            && db.matches[db.generations[g].matchId].userId == user
  }

  /** An injective image of a set is no larger than any set that holds it. */
  lemma {:induction false} InjectionBound<A, B>(a: set<A>, b: set<B>, f: map<A, B>)
    requires a <= f.Keys
    requires forall x :: x in a ==> f[x] in b
    requires forall x, y :: x in a && y in a && f[x] == f[y] ==> x == y
    ensures |a| <= |b|
    decreases a
  {
    if a != {} {
      var x :| x in a;
      InjectionBound(a - {x}, b - {f[x]}, f);
    }
  }

  function FirstRequest(requests: seq<Request>, m: Id): (i: nat)
    requires RequestedMatch(requests, m)
    ensures i < |requests| && requests[i].matchId == m
  {
    if requests[0].matchId == m then 0
    else
      assert RequestedMatch(requests[1..], m) by {
        var k :| 0 <= k < |requests| && requests[k].matchId == m;
        assert requests[1..][k - 1].matchId == m;
      }
      1 + FirstRequest(requests[1..], m)
  }

  function UsersAttempts(db: Db, user: Id, attempt: nat): set<Id> {
    set g | g in UsersGenerations(db, user) && db.generations[g].attempt == attempt
  }

  lemma AttemptsBounded(w: World, user: Id, attempt: nat)
    requires Inv(w)
    ensures |UsersAttempts(w.db, user, attempt)| <= |RequestsByUser(w.requests, user)|
  {
    var rows := UsersAttempts(w.db, user, attempt);
    forall g | g in rows
      ensures RequestedMatch(w.requests, w.db.generations[g].matchId)
    {
      assert GenerationOk(w.db, w.requests, g);
    }
    var paidBy := map g | g in rows :: FirstRequest(w.requests, w.db.generations[g].matchId);
    InjectionBound(rows, RequestsByUser(w.requests, user), paidBy);
  }

  /** A user's accepted requests whose own transaction did not commit. */
  function UnpaidRequests(requests: seq<Request>, user: Id): set<nat> {
    set i | 0 <= i < |requests| && requests[i].userId == user && !requests[i].paid
  }

  lemma OneMoreRequest(rest: seq<Request>, last: Request, user: Id)
    ensures |RequestsByUser(rest + [last], user)|
            == |RequestsByUser(rest, user)| + (if last.userId == user then 1 else 0)
    ensures |UnpaidRequests(rest + [last], user)|
            == |UnpaidRequests(rest, user)| + (if last.userId == user && !last.paid then 1 else 0)
  {
    if last.userId == user {
      assert RequestsByUser(rest + [last], user) == RequestsByUser(rest, user) + {|rest|};
    } else {
      assert RequestsByUser(rest + [last], user) == RequestsByUser(rest, user);
    }
    if last.userId == user && !last.paid {
      assert UnpaidRequests(rest + [last], user) == UnpaidRequests(rest, user) + {|rest|};
    } else {
      assert UnpaidRequests(rest + [last], user) == UnpaidRequests(rest, user);
    }
  }

  /** Each accepted request is paid or unpaid. */
  lemma {:induction false} PaidOrUnpaid(requests: seq<Request>, user: Id)
    ensures |RequestsByUser(requests, user)| == Paid(requests, user) + |UnpaidRequests(requests, user)|
  {
    if requests != [] {
      var last := |requests| - 1;
      var rest := requests[..last];
      PaidOrUnpaid(rest, user);
      OneMoreRequest(rest, requests[last], user);
      assert requests == rest + [requests[last]];
    }
  }

  /** No accepted request of this user's lost its own transaction. */
  predicate AllPaid(requests: seq<Request>, user: Id) {
    forall i :: 0 <= i < |requests| && requests[i].userId == user ==> requests[i].paid
  }

  /** A user's accepted requests are all paid for exactly when each of the user's own transactions committed. */
  lemma AcceptedIsPaid(requests: seq<Request>, user: Id)
    ensures Paid(requests, user) == |RequestsByUser(requests, user)| <==> AllPaid(requests, user)
  {
    PaidOrUnpaid(requests, user);
    if i :| 0 <= i < |requests| && requests[i].userId == user && !requests[i].paid {
      assert i in UnpaidRequests(requests, user);
    }
  }

  /**
   Plain conservation, initial quota == remaining quota + accepted requests, exactly when none of the
   user's accepted requests lost its own transaction. Other users' requests make no difference.
   */
  lemma AcceptedIsTakenIff(worlds: seq<World>, steps: seq<Step>, i: nat, user: Id)
    requires IsRun(worlds, steps) && Initial(worlds[0]) && i < |worlds|
    requires user in worlds[0].db.quota && worlds[0].db.quota[user].Some?
    ensures user in worlds[i].db.quota && worlds[i].db.quota[user].Some?
    ensures worlds[0].db.quota[user].value
            == worlds[i].db.quota[user].value + |RequestsByUser(worlds[i].requests, user)|
            <==> AllPaid(worlds[i].requests, user)
  {
    QuotaConserved(worlds, steps, i, user);
    AcceptedIsPaid(worlds[i].requests, user);
  }

  /** A run in which a request is accepted and its resume generated while no quota is taken. */
  lemma AcceptedWithoutQuota(row: Match, m: Id, g: Id, checks: Checks)
    ensures var db := Db(map[m := row], map[], {row.jobId}, {row.userId}, map[row.userId := Some(1)], []);
            var w0 := World(db, [], [], []);
            && Initial(w0) && Enabled(w0, Trigger(m, false))
            && var w1 := Next(w0, Trigger(m, false));
            var delivery := Deliver(0, Outside(Answer(()), g, checks, None), Handled(true));
            && |RequestsByUser(w1.requests, row.userId)| == 1 && !AllPaid(w1.requests, row.userId)
            && Enabled(w1, delivery)
            && UsersGenerations(Next(w1, delivery).db, row.userId) == {g}
            && Next(w1, delivery).db.quota == w0.db.quota
  {
    var db := Db(map[m := row], map[], {row.jobId}, {row.userId}, map[row.userId := Some(1)], []);
    var w1 := Next(World(db, [], [], []), Trigger(m, false));
    assert GenerationsOf(db, m) == {};
    assert RequestsByUser(w1.requests, row.userId) == {0};
  }

  /**
   Spend: over any run a user never gets more than two generated resumes per unit of quota taken and
   per accepted request that lost its transaction, whatever is redelivered, crashes or fails.
   */
  lemma GenerationsPaidFor(worlds: seq<World>, steps: seq<Step>, i: nat, user: Id)
    requires IsRun(worlds, steps) && Initial(worlds[0]) && i < |worlds|
    requires user in worlds[0].db.quota && worlds[0].db.quota[user].Some?
    ensures user in worlds[i].db.quota && worlds[i].db.quota[user].Some?
    ensures |UsersGenerations(worlds[i].db, user)|
            <= 2 * (worlds[0].db.quota[user].value - worlds[i].db.quota[user].value
                    + |UnpaidRequests(worlds[i].requests, user)|)
    ensures AllPaid(worlds[i].requests, user) ==>
              |UsersGenerations(worlds[i].db, user)|
              <= 2 * (worlds[0].db.quota[user].value - worlds[i].db.quota[user].value)
  {
    QuotaConserved(worlds, steps, i, user);
    PaidOrUnpaid(worlds[i].requests, user);
    AcceptedIsPaid(worlds[i].requests, user);
    RunInv(worlds, steps, i);
    TwoPerRequest(worlds[i], user);
  }

  lemma TwoPerRequest(w: World, user: Id)
    requires Inv(w)
    ensures |UsersGenerations(w.db, user)| <= 2 * |RequestsByUser(w.requests, user)|
  {
    forall g | g in UsersGenerations(w.db, user)
      ensures g in UsersAttempts(w.db, user, 1) + UsersAttempts(w.db, user, 2)
    {
      assert GenerationOk(w.db, w.requests, g);
    }
    assert UsersGenerations(w.db, user) == UsersAttempts(w.db, user, 1) + UsersAttempts(w.db, user, 2);
    AttemptsBounded(w, user, 1);
    AttemptsBounded(w, user, 2);
  }
}
