/**
 Progress of the generate/verify loop: without a crash between commit and flush and without a task
 given up, no accepted request is forgotten, and deliveries run out.
 */
module ResumeTermination {
  import opened Wrappers
  import opened ResumeTables
  import opened Generate
  import opened Verify
  import opened ResumeRuns
  import opened ResumeOutcomes

  /** A step that loses nothing: no crash between commit and flush, no exhausted retries. */
  predicate Lossless(s: Step) {
    !s.GiveUp? && (s.Deliver? ==> !s.fate.CrashBeforeFlush?)
  }

  // ---------------------------------------------------------------- nothing is forgotten

  ghost predicate VerifyQueued(w: World, g: Id) {
    exists t :: t in w.pending && t.VerifyTask? && t.generationId == Parsed(g)
  }

  ghost predicate GenerateQueued(w: World, m: Id, attempt: nat) {
    exists t :: t in w.pending && t.GenerateTask? && t.matchId == Parsed(m) && PayloadAttempt(t.attempt) == attempt
  }

  /** Some delivery for this generation was answered not_found, and its match, job or profile is missing. */
  ghost predicate VerifyDropped(w: World, g: Id) {
    && (exists r :: r in w.responses && r.task.VerifyTask? && r.task.generationId == Parsed(g) && r.action == NotFound)
    && g in w.db.generations && !Judgeable(w.db, w.db.generations[g])
  }

  /** Some delivery for this attempt ended for good: the call failed, or the job, user or profile is missing. */
  ghost predicate GenerateDropped(w: World, m: Id, attempt: nat) {
    exists r :: r in w.responses && IsDrop(w.db, r, m, attempt)
  }

  ghost predicate IsDrop(db: Db, r: Response, m: Id, attempt: nat) {
    && r.task.GenerateTask? && r.task.matchId == Parsed(m) && PayloadAttempt(r.task.attempt) == attempt
    && (r.action == LlmPermanentFailure || (r.action == NotFound && !Served(db, m)))
  }

  ghost predicate HasAttempt(db: Db, m: Id, attempt: nat) {
    exists g :: g in db.generations && db.generations[g].matchId == m && db.generations[g].attempt == attempt
  }

  ghost predicate VerifyTended(w: World, g: Id)
    requires g in w.db.generations
  {
    w.db.generations[g].status.None? ==> VerifyQueued(w, g) || VerifyDropped(w, g)
  }

  ghost predicate AttemptTended(w: World, m: Id, attempt: nat) {
    HasAttempt(w.db, m, attempt) || GenerateQueued(w, m, attempt) || GenerateDropped(w, m, attempt)
  }

  /** Every unverified row, every failed first attempt and every request has its next step on the way. */
  ghost predicate Tended(w: World) {
    && (forall g :: g in w.db.generations ==> VerifyTended(w, g))
    && (forall g :: g in w.db.generations && IsFailedFirst(w.db.generations[g], w.db.generations[g].matchId) ==>
          AttemptTended(w, w.db.generations[g].matchId, 2))
    && (forall i :: 0 <= i < |w.requests| ==> AttemptTended(w, w.requests[i].matchId, 1))
  }

  lemma WithoutKeepsOthers(tasks: seq<Task>, i: nat, t: Task)
    requires i < |tasks| && t in tasks && t != tasks[i]
    ensures t in Without(tasks, i)
  {
    var k :| 0 <= k < |tasks| && tasks[k] == t;
    if k < i {
      assert Without(tasks, i)[k] == t;
    } else {
      assert Without(tasks, i)[k - 1] == t;
    }
  }

  /** After a lossless delivery: rows grew, responses grew, and every task but the delivered one is still queued. */
  lemma DeliveryShape(w: World, i: nat, outside: Outside, fate: Fate)
    requires Inv(w) && i < |w.pending| && HandleReady(w.db, w.pending[i], outside)
    requires !fate.CrashBeforeFlush?
    ensures var w' := DeliverTask(w, i, outside, fate);
            && w'.requests == w.requests
            && (forall r :: r in w.responses ==> r in w'.responses)
            && (forall t :: t in w.pending && t != w.pending[i] ==> t in w'.pending)
            && Grows(w.db, w'.db)
  {
    DeliverKeeps(w, i, outside, fate);
    forall t | t in w.pending && t != w.pending[i]
      ensures t in DeliverTask(w, i, outside, fate).pending
    {
      WithoutKeepsOthers(w.pending, i, t);
    }
  }

  ghost predicate KeepsRows(before: Db, after: Db) {
    forall g :: g in before.generations ==> g in after.generations && after.generations[g] == before.generations[g]
  }

  /** A new row is undecided, and its verify task goes out with it. */
  ghost predicate NewRowQueued(task: Task, end: TxEnd, g: Id)
    requires task.GenerateTask? && task.matchId.Parsed? && g in end.db.generations
  {
    && end.Done? && VerifyTask(task.matchId, Parsed(g), AttemptValue(PayloadAttempt(task.attempt))) in end.enqueued
    && end.db.generations[g].status.None?
    && end.db.generations[g].matchId == task.matchId.id
  }

  /** A handled generate task either leaves its attempt's row behind or says why it never will. */
  lemma GenerateSettles(w: World, task: Task, outside: Outside)
    requires Inv(w) && task.GenerateTask? && TaskOk(w.db, w.requests, task) && HandleReady(w.db, task, outside)
    ensures var end := Handle(w.db, task, outside);
            end.Done? ==> end.action == LlmPermanentFailure
                          || (end.action == NotFound && !Served(w.db, task.matchId.id))
                          || HasAttempt(end.db, task.matchId.id, PayloadAttempt(task.attempt))
    ensures var end := Handle(w.db, task, outside);
            forall g :: g in end.db.generations && g !in w.db.generations ==> NewRowQueued(task, end, g)
    ensures KeepsRows(w.db, Handle(w.db, task, outside).db)
  {
    var m, attempt := task.matchId.id, PayloadAttempt(task.attempt);
    var end := Handle(w.db, task, outside);
    if end.Done? && end.action == SkippedExisting {
      EnoughRowsHasAttempt(w, m, attempt);
    } else if end.Done? && end.action == Generated {
      assert end.db.generations[outside.newId].attempt == attempt;
    }
  }

  lemma EnoughRowsHasAttempt(w: World, m: Id, attempt: nat)
    requires Inv(w) && attempt in {1, 2} && |GenerationsOf(w.db, m)| >= attempt
    ensures HasAttempt(w.db, m, attempt)
  {
    var rows := GenerationsOf(w.db, m);
    var g :| g in rows;
    assert GenerationOk(w.db, w.requests, g);
    if w.db.generations[g].attempt != attempt {
      if attempt == 2 {
        assert |rows - {g}| >= 1;
        var h :| h in rows - {g};
        assert GenerationOk(w.db, w.requests, h);
        assert w.db.generations[h].attempt == 2;
      }
    }
  }

  /** A handled verify task decides its row or says why it cannot; a first failure queues attempt 2. */
  lemma VerifySettles(w: World, task: Task, outside: Outside)
    requires Inv(w) && task.VerifyTask? && TaskOk(w.db, w.requests, task) && HandleReady(w.db, task, outside)
    ensures var end := Handle(w.db, task, outside);
            && end.db.generations.Keys == w.db.generations.Keys
            && (forall h :: h in w.db.generations && h != task.generationId.id ==>
                  end.db.generations[h] == w.db.generations[h])
            && (end.Raised? ==> end.db.generations == w.db.generations)
    ensures var end := Handle(w.db, task, outside);
            end.Done? ==> (end.action == NotFound && !Judgeable(w.db, w.db.generations[task.generationId.id]))
                          || end.db.generations[task.generationId.id].status.Some?
    ensures var end := Handle(w.db, task, outside);
            var g := task.generationId.id;
            end.db.generations[g].status == Some(Failed) && w.db.generations[g].status.None? ==>
              end.Done? && GenerateTask(task.matchId, AttemptValue(2), end.db.generations[g].failures,
                                        Some(g)) in end.enqueued
  {
    var g := task.generationId.id;
    var row := w.db.generations[g];
    assert GenerationOk(w.db, w.requests, g);
    VerifyReaches(w.db, w.requests, task, outside.checks, outside.latest);
    if row.status.None? && Handle(w.db, task, outside)
                           == RunGraph(w.db, g, w.db.matches[row.matchId], row.attempt, outside.checks) {
      GraphDecision(w.db, g, w.db.matches[row.matchId], row.attempt, outside.checks);
      DecisionSettles(w.db, w.requests, task, outside.checks, Handle(w.db, task, outside));
    }
  }

  lemma DecisionSettles(db: Db, requests: seq<Request>, task: Task, checks: Checks, end: TxEnd)
    requires task.VerifyTask? && TaskOk(db, requests, task)
    requires var g := task.generationId.id;
             db.generations[g].attempt in {1, 2} && GraphEnds(db, g, db.generations[g].attempt, checks, end)
    ensures end.Done? ==> end.db.generations[task.generationId.id].status.Some?
    ensures var g := task.generationId.id;
            end.db.generations[g].status == Some(Failed) ==>
              end.Done? && GenerateTask(task.matchId, AttemptValue(2), end.db.generations[g].failures,
                                        Some(g)) in end.enqueued
  {
  }

  lemma StillAttemptTended(w: World, i: nat, outside: Outside, fate: Fate, m: Id, attempt: nat)
    requires Inv(w) && i < |w.pending| && HandleReady(w.db, w.pending[i], outside) && !fate.CrashBeforeFlush?
    requires AttemptTended(w, m, attempt)
    ensures AttemptTended(DeliverTask(w, i, outside, fate), m, attempt)
  {
    var w' := DeliverTask(w, i, outside, fate);
    var task := w.pending[i];
    DeliveryShape(w, i, outside, fate);
    if HasAttempt(w.db, m, attempt) {
      var g :| g in w.db.generations && w.db.generations[g].matchId == m && w.db.generations[g].attempt == attempt;
      assert g in w'.db.generations;
    } else if GenerateDropped(w, m, attempt) {
      var r :| r in w.responses && IsDrop(w.db, r, m, attempt);
      assert r in w'.responses && IsDrop(w'.db, r, m, attempt);
    } else {
      var t :| t in w.pending && t.GenerateTask? && t.matchId == Parsed(m) && PayloadAttempt(t.attempt) == attempt;
      if t == task && fate.Handled? && Handle(w.db, task, outside).Done? {
        GenerateSettles(w, task, outside);
        var end := Handle(w.db, task, outside);
        if !HasAttempt(end.db, m, attempt) {
          assert Response(task, end.action) in w'.responses && IsDrop(w'.db, Response(task, end.action), m, attempt);
        }
      } else {
        assert t in w'.pending;
      }
    }
  }

  /** An answered verify task that found its rows missing leaves the generation dropped. */
  lemma DroppedHere(w: World, i: nat, end: TxEnd, fate: Fate, g: Id)
    requires i < |w.pending| && w.pending[i].VerifyTask? && w.pending[i].generationId == Parsed(g)
    requires fate.Handled? && end.Done? && end.action == NotFound && Grows(w.db, end.db)
    requires g in w.db.generations && !Judgeable(w.db, w.db.generations[g])
    ensures VerifyDropped(Delivered(w, i, end, fate), g)
  {
    var w' := Delivered(w, i, end, fate);
    assert w'.responses[|w.responses|] == Response(w.pending[i], NotFound);
  }

  lemma StillVerifyTended(w: World, i: nat, outside: Outside, fate: Fate, g: Id)
    requires Inv(w) && i < |w.pending| && HandleReady(w.db, w.pending[i], outside) && !fate.CrashBeforeFlush?
    requires g in w.db.generations && VerifyTended(w, g)
    ensures g in DeliverTask(w, i, outside, fate).db.generations
    ensures VerifyTended(DeliverTask(w, i, outside, fate), g)
  {
    var w' := DeliverTask(w, i, outside, fate);
    var task := w.pending[i];
    DeliveryShape(w, i, outside, fate);
    if w'.db.generations[g].status.None? {
      if VerifyDropped(w, g) {
        var r :| r in w.responses && r.task.VerifyTask? && r.task.generationId == Parsed(g) && r.action == NotFound;
        assert r in w'.responses;
      } else {
        var t :| t in w.pending && t.VerifyTask? && t.generationId == Parsed(g);
        if t == task && fate.Handled? && Handle(w.db, task, outside).Done? {
          VerifySettles(w, task, outside);
          DroppedHere(w, i, Handle(w.db, task, outside), fate, g);
        } else {
          assert t in w'.pending;
        }
      }
    }
  }

  lemma NewRowsTended(w: World, i: nat, outside: Outside, fate: Fate, g: Id)
    requires Inv(w) && i < |w.pending| && HandleReady(w.db, w.pending[i], outside) && !fate.CrashBeforeFlush?
    requires g in DeliverTask(w, i, outside, fate).db.generations && g !in w.db.generations
    ensures VerifyTended(DeliverTask(w, i, outside, fate), g)
    ensures DeliverTask(w, i, outside, fate).db.generations[g].status.None?
  {
    var w' := DeliverTask(w, i, outside, fate);
    var task := w.pending[i];
    assert TaskOk(w.db, w.requests, task);
    if task.GenerateTask? {
      GenerateSettles(w, task, outside);
      var t := VerifyTask(task.matchId, Parsed(g), AttemptValue(PayloadAttempt(task.attempt)));
      assert t in Handle(w.db, task, outside).enqueued;
      assert t in w'.pending;
    } else {
      VerifySettles(w, task, outside);
    }
  }

  /** What a handled delivery flushes is on the queue afterwards. */
  lemma FlushedIsPending(w: World, i: nat, end: TxEnd, fate: Fate, t: Task)
    requires i < |w.pending| && fate.Handled? && end.Done? && t in end.enqueued
    ensures t in Delivered(w, i, end, fate).pending
  {
  }

  lemma NewFailuresTended(w: World, i: nat, outside: Outside, fate: Fate, g: Id)
    requires Inv(w) && i < |w.pending| && HandleReady(w.db, w.pending[i], outside) && !fate.CrashBeforeFlush?
    requires g in w.db.generations && w.db.generations[g].status != Some(Failed)
    requires var w' := DeliverTask(w, i, outside, fate);
             g in w'.db.generations && w'.db.generations[g].status == Some(Failed)
    ensures AttemptTended(DeliverTask(w, i, outside, fate), w.db.generations[g].matchId, 2)
  {
    var w' := DeliverTask(w, i, outside, fate);
    var task := w.pending[i];
    assert TaskOk(w.db, w.requests, task);
    if task.GenerateTask? {
      GenerateSettles(w, task, outside);
    } else {
      VerifySettles(w, task, outside);
      FailureTended(w, i, Handle(w.db, task, outside), fate, g);
    }
  }

  /** A row that a handled verify task failed has its second attempt queued. */
  lemma FailureTended(w: World, i: nat, end: TxEnd, fate: Fate, g: Id)
    requires i < |w.pending| && w.pending[i].VerifyTask? && TaskOk(w.db, w.requests, w.pending[i])
    requires fate.Handled? && g == w.pending[i].generationId.id && g in end.db.generations
    requires end.Done? && GenerateTask(w.pending[i].matchId, AttemptValue(2), end.db.generations[g].failures, Some(g))
                          in end.enqueued
    ensures AttemptTended(Delivered(w, i, end, fate), w.db.generations[g].matchId, 2)
  {
    var t := GenerateTask(w.pending[i].matchId, AttemptValue(2), end.db.generations[g].failures, Some(g));
    FlushedIsPending(w, i, end, fate, t);
    assert GenerateQueued(Delivered(w, i, end, fate), w.db.generations[g].matchId, 2);
  }

  lemma DeliveryKeepsTended(w: World, i: nat, outside: Outside, fate: Fate)
    requires Inv(w) && Tended(w)
    requires i < |w.pending| && HandleReady(w.db, w.pending[i], outside) && !fate.CrashBeforeFlush?
    ensures Tended(DeliverTask(w, i, outside, fate))
  {
    var w' := DeliverTask(w, i, outside, fate);
    DeliveryShape(w, i, outside, fate);
    forall g | g in w'.db.generations
      ensures VerifyTended(w', g)
    {
      if g in w.db.generations {
        StillVerifyTended(w, i, outside, fate, g);
      } else {
        NewRowsTended(w, i, outside, fate, g);
      }
    }
    forall g | g in w'.db.generations && IsFailedFirst(w'.db.generations[g], w'.db.generations[g].matchId)
      ensures AttemptTended(w', w'.db.generations[g].matchId, 2)
    {
      if g !in w.db.generations {
        NewRowsTended(w, i, outside, fate, g);
      } else if w.db.generations[g].status == Some(Failed) {
        StillAttemptTended(w, i, outside, fate, w.db.generations[g].matchId, 2);
      } else {
        NewFailuresTended(w, i, outside, fate, g);
      }
    }
    forall k | 0 <= k < |w'.requests|
      ensures AttemptTended(w', w'.requests[k].matchId, 1)
    {
      StillAttemptTended(w, i, outside, fate, w.requests[k].matchId, 1);
    }
  }

  /** More tasks waiting over the same rows. */
  ghost predicate MoreTasks(w: World, w': World) {
    && (forall t :: t in w.pending ==> t in w'.pending) && w'.responses == w.responses
    && w'.db.generations == w.db.generations && Grows(w.db, w'.db)
  }

  lemma MoreTasksTendAttempt(w: World, w': World, m: Id, attempt: nat)
    requires MoreTasks(w, w') && AttemptTended(w, m, attempt)
    ensures AttemptTended(w', m, attempt)
  {
    if GenerateDropped(w, m, attempt) {
      var r :| r in w.responses && IsDrop(w.db, r, m, attempt);
      assert r in w'.responses && IsDrop(w'.db, r, m, attempt);
    }
  }

  lemma MoreTasksTendVerify(w: World, w': World, g: Id)
    requires MoreTasks(w, w') && g in w.db.generations && VerifyTended(w, g)
    ensures VerifyTended(w', g)
  {
  }

  lemma TriggerKeepsTended(w: World, m: Id, commits: bool)
    requires Inv(w) && Tended(w)
    ensures Tended(TriggerGenerate(w, m, commits))
  {
    var w' := TriggerGenerate(w, m, commits);
    if w' != w {
      assert forall t :: t in w.pending ==> t in w'.pending;
      forall k, a | AttemptTended(w, k, a)
        ensures AttemptTended(w', k, a)
      {
        MoreTasksTendAttempt(w, w', k, a);
      }
      forall g | g in w'.db.generations
        ensures VerifyTended(w', g)
      {
        MoreTasksTendVerify(w, w', g);
      }
      assert GenerateTask(Parsed(m), NoAttempt, [], None) in w'.pending;
    }
  }

  /** In every world of a lossless run, every unverified generation has its verify task on the queue. */
  lemma {:induction false} RunTended(worlds: seq<World>, steps: seq<Step>, i: nat)
    requires IsRun(worlds, steps) && Initial(worlds[0]) && i < |worlds|
    requires forall k :: 0 <= k < |steps| ==> Lossless(steps[k])
    ensures Tended(worlds[i])
  {
    if i > 0 {
      RunTended(worlds, steps, i - 1);
      RunInv(worlds, steps, i - 1);
      match steps[i - 1]
      case Trigger(m, commits) => TriggerKeepsTended(worlds[i - 1], m, commits);
      case Deliver(k, outside, fate) => DeliveryKeepsTended(worlds[i - 1], k, outside, fate);
    }
  }

  /** The request ended with a verified resume, or with a recorded permanent failure. */
  ghost predicate Settled(w: World, m: Id) {
    || GenerateDropped(w, m, 1)
    || exists g :: g in w.db.generations && w.db.generations[g].matchId == m && w.db.generations[g].attempt == 1
                   && FirstSettled(w, g)
  }

  ghost predicate FirstSettled(w: World, g: Id)
    requires g in w.db.generations
  {
    match w.db.generations[g].status
    case None => VerifyDropped(w, g)
    case Some(Passed) => true
    case Some(NeedsReview) => true
    case Some(Failed) =>
      || GenerateDropped(w, w.db.generations[g].matchId, 2)
      || exists h :: SecondSettled(w, w.db.generations[g].matchId, h)
  }

  /** h is the match's second attempt, and it passed, is in review, or its verify task was answered not_found. */
  ghost predicate SecondSettled(w: World, m: Id, h: Id) {
    && h in w.db.generations && w.db.generations[h].matchId == m && w.db.generations[h].attempt == 2
    && (w.db.generations[h].status == Some(Passed) || w.db.generations[h].status == Some(NeedsReview)
        || (w.db.generations[h].status.None? && VerifyDropped(w, h)))
  }

  /**
   When the queue has run empty in a lossless run, every accepted request is settled: its resume is
   passed or in review (on attempt 1 or, after a failed attempt 1, on attempt 2), or a permanent
   failure was answered. No request is left half way.
   */
  lemma QuietMeansSettled(worlds: seq<World>, steps: seq<Step>, i: nat, k: nat)
    requires IsRun(worlds, steps) && Initial(worlds[0]) && i < |worlds|
    requires forall j :: 0 <= j < |steps| ==> Lossless(steps[j])
    requires worlds[i].pending == [] && k < |worlds[i].requests|
    ensures Settled(worlds[i], worlds[i].requests[k].matchId)
  {
    RunTended(worlds, steps, i);
    RunInv(worlds, steps, i);
    var w := worlds[i];
    var m := w.requests[k].matchId;
    assert AttemptTended(w, m, 1) && !GenerateQueued(w, m, 1);
    if HasAttempt(w.db, m, 1) {
      var g :| g in w.db.generations && w.db.generations[g].matchId == m && w.db.generations[g].attempt == 1;
      assert VerifyTended(w, g);
      if w.db.generations[g].status == Some(Failed) {
        assert IsFailedFirst(w.db.generations[g], m);
        assert AttemptTended(w, w.db.generations[g].matchId, 2);
        QuietSecondSettled(w, m);
      }
      if w.db.generations[g].status.None? {
        assert !VerifyQueued(w, g);
      }
      assert FirstSettled(w, g);
    }
  }

  /**
   So a request whose job, user and profile are there, and none of whose calls failed for good while
   generating, ends with a resume that is passed or in review.
   */
  lemma QuietMeansVerified(worlds: seq<World>, steps: seq<Step>, i: nat, k: nat)
    requires IsRun(worlds, steps) && Initial(worlds[0]) && i < |worlds|
    requires forall j :: 0 <= j < |steps| ==> Lossless(steps[j])
    requires worlds[i].pending == [] && k < |worlds[i].requests|
    requires Served(worlds[i].db, worlds[i].requests[k].matchId)
    requires forall r :: r in worlds[i].responses && r.task.GenerateTask? ==> r.action != LlmPermanentFailure
    ensures exists g :: && g in worlds[i].db.generations
                        && worlds[i].db.generations[g].matchId == worlds[i].requests[k].matchId
                        && worlds[i].db.generations[g].status in {Some(Passed), Some(NeedsReview)}
  {
    QuietMeansSettled(worlds, steps, i, k);
    var w := worlds[i];
    var m := w.requests[k].matchId;
    assert forall r, attempt :: r in w.responses ==> !IsDrop(w.db, r, m, attempt);
    var g :| g in w.db.generations && w.db.generations[g].matchId == m && w.db.generations[g].attempt == 1
             && FirstSettled(w, g);
    if w.db.generations[g].status == Some(Failed) {
      var h :| SecondSettled(w, m, h);
      assert w.db.generations[h].status in {Some(Passed), Some(NeedsReview)};
    } else {
      assert w.db.generations[g].status in {Some(Passed), Some(NeedsReview)};
    }
  }

  /** After a failed first attempt, with nothing left on the queue: the second is decided, or was dropped. */
  lemma QuietSecondSettled(w: World, m: Id)
    requires Inv(w) && Tended(w) && w.pending == [] && AttemptTended(w, m, 2)
    ensures GenerateDropped(w, m, 2) || exists h :: SecondSettled(w, m, h)
  {
    if HasAttempt(w.db, m, 2) {
      var h :| h in w.db.generations && w.db.generations[h].matchId == m && w.db.generations[h].attempt == 2;
      assert VerifyTended(w, h) && GenerationOk(w.db, w.requests, h);
      match w.db.generations[h].status
      case None => assert VerifyDropped(w, h) && SecondSettled(w, m, h);
      case Some(status) =>
        assert status != Failed && (status == Passed || status == NeedsReview);
        assert SecondSettled(w, m, h);
    }
  }

  // ---------------------------------------------------------------- deliveries run out

  /** How many handled deliveries a task can still lead to: generate 1, verify 1, generate 2, verify 2. */
  function Weight(task: Task): nat {
    match task
    case GenerateTask(_, attempt, _, _) => if PayloadAttempt(attempt) == 1 then 4 else 2
    case VerifyTask(_, _, attempt) => if attempt == AttemptValue(1) then 3 else 1
  }

  function Work(tasks: seq<Task>): nat {
    if tasks == [] then 0 else Weight(tasks[0]) + Work(tasks[1..])
  }

  lemma {:induction false} WorkAppend(a: seq<Task>, b: seq<Task>)
    ensures Work(a + b) == Work(a) + Work(b)
  {
    if a == [] {
      assert a + b == b;
    } else {
      WorkAppend(a[1..], b);
      assert (a + b)[1..] == a[1..] + b;
    }
  }

  lemma WorkWithout(tasks: seq<Task>, i: nat)
    requires i < |tasks|
    ensures Work(Without(tasks, i)) == Work(tasks) - Weight(tasks[i])
  {
    WorkAppend(tasks[..i], tasks[i..]);
    assert tasks == tasks[..i] + tasks[i..];
    assert tasks[i..][1..] == tasks[i + 1..];
    WorkAppend(tasks[..i], tasks[i + 1..]);
  }

  /** Whatever a delivery flushes weighs less than the task delivered. */
  lemma FollowUpIsLighter(w: World, task: Task, outside: Outside)
    requires Inv(w) && TaskOk(w.db, w.requests, task) && HandleReady(w.db, task, outside)
    ensures var end := Handle(w.db, task, outside); end.Done? ==> Work(end.enqueued) < Weight(task)
  {
    if task.VerifyTask? {
      var g := task.generationId.id;
      assert GenerationOk(w.db, w.requests, g);
      VerifyOnlyDecides(w.db, w.requests, task, outside.checks, outside.latest);
      DecisionIsLighter(w.db, w.requests, task, Handle(w.db, task, outside));
    }
  }

  lemma DecisionIsLighter(db: Db, requests: seq<Request>, task: Task, end: TxEnd)
    requires task.VerifyTask? && TaskOk(db, requests, task) && db.generations[task.generationId.id].attempt >= 1
    requires OnlyDecides(db, end, task.generationId.id)
    ensures end.Done? ==> Work(end.enqueued) < Weight(task)
  {
  }

  /** A delivery that does not take its task off the queue. */
  predicate Redelivers(w: World, s: Step)
    requires Enabled(w, s)
  {
    s.Deliver? && (s.fate != Handled(true) || Handle(w.db, w.pending[s.index], s.outside).Raised?)
  }

  lemma DeliveryWork(w: World, s: Step)
    requires Inv(w) && Enabled(w, s) && s.Deliver?
    ensures Redelivers(w, s) ==> Work(Next(w, s).pending) <= Work(w.pending) + 3
    ensures !Redelivers(w, s) ==> Work(Next(w, s).pending) < Work(w.pending)
  {
    var task := w.pending[s.index];
    FollowUpIsLighter(w, task, s.outside);
    if !s.fate.CrashBeforeCommit? {
      DeliveredWork(w, s.index, Handle(w.db, task, s.outside), s.fate);
    }
  }

  lemma DeliveredWork(w: World, i: nat, end: TxEnd, fate: Fate)
    requires i < |w.pending| && (end.Done? ==> Work(end.enqueued) < Weight(w.pending[i]))
    ensures Work(Delivered(w, i, end, fate).pending) <= Work(w.pending) + 3
    ensures fate == Handled(true) && end.Done? ==> Work(Delivered(w, i, end, fate).pending) < Work(w.pending)
  {
    if fate.Handled? && end.Done? {
      WorkWithout(w.pending, i);
      WorkAppend(Without(w.pending, i), end.enqueued);
      WorkAppend(w.pending, end.enqueued);
    }
  }

  function Redeliveries(worlds: seq<World>, steps: seq<Step>, n: nat): nat
    requires n <= |steps| && |worlds| == |steps| + 1
    requires forall i :: 0 <= i < |steps| ==> Enabled(worlds[i], steps[i])
  {
    if n == 0 then 0
    else Redeliveries(worlds, steps, n - 1) + (if Redelivers(worlds[n - 1], steps[n - 1]) then 1 else 0)
  }

  lemma {:induction false} WorkRunsDown(worlds: seq<World>, steps: seq<Step>, n: nat)
    requires IsRun(worlds, steps) && Inv(worlds[0]) && n <= |steps|
    requires forall k :: 0 <= k < |steps| ==> steps[k].Deliver?
    ensures Inv(worlds[n])
    ensures n + Work(worlds[n].pending) <= Work(worlds[0].pending) + 4 * Redeliveries(worlds, steps, n)
  {
    if n > 0 {
      WorkRunsDown(worlds, steps, n - 1);
      DeliveryWork(worlds[n - 1], steps[n - 1]);
      StepKeeps(worlds[n - 1], steps[n - 1]);
    }
  }

  /**
   Termination: from any reachable world, deliveries alone cannot go on for more steps than the work
   on the queue (at most four per task) plus four for every redelivery the queue chooses to make. So
   with finitely many redeliveries the queue runs empty, crashes included.
   */
  lemma DeliveriesRunOut(worlds: seq<World>, steps: seq<Step>)
    requires IsRun(worlds, steps) && Inv(worlds[0])
    requires forall k :: 0 <= k < |steps| ==> steps[k].Deliver?
    ensures |steps| <= 4 * |worlds[0].pending| + 4 * Redeliveries(worlds, steps, |steps|)
  {
    WorkRunsDown(worlds, steps, |steps|);
    WorkAtMost(worlds[0].pending);
  }

  lemma {:induction false} WorkAtMost(tasks: seq<Task>)
    ensures Work(tasks) <= 4 * |tasks|
  {
    if tasks != [] {
      WorkAtMost(tasks[1..]);
    }
  }
}
