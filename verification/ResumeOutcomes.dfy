/**
 What each answer of generate-resume, verify-resume and trigger_generate means, as decision tables over
 the payload, the tables and the outcomes of the calls: which answer, which rows, tasks and events.
 */
module ResumeOutcomes {
  import opened Wrappers
  import opened ResumeTables
  import opened Generate
  import opened Verify
  import opened ResumeRuns

  /** Nothing changed but the log, which has one more line. */
  ghost predicate LogsOnly(db: Db, end: TxEnd, stage: Stage, action: Action) {
    && end.db == db.(events := end.db.events)
    && LoggedOnce(db, end.db, stage, action)
    && (end.Done? ==> end.enqueued == [] && end.action == action)
  }

  ghost predicate LoggedOnce(before: Db, after: Db, stage: Stage, action: Action) {
    && |after.events| == |before.events| + 1 && after.events[..|before.events|] == before.events
    && after.events[|before.events|].stage == stage && after.events[|before.events|].action == action
  }

  // ---------------------------------------------------------------- generate

  /** The payload asks for this attempt: its integer, at least 1, or 1 when it holds none. */
  ghost predicate AsksFor(raw: RawAttempt, attempt: nat) {
    match raw
    case AttemptValue(v) => attempt == if v >= 1 then v else 1
    case _ => attempt == 1
  }

  /** The match has fewer generations than the attempt asked for, which is 1 or 2. */
  ghost predicate Admitted(db: Db, m: Id, attempt: nat) {
    |set g | g in db.generations && db.generations[g].matchId == m| < attempt <= 2
  }

  /** The job, user and profile of the match are there. */
  ghost predicate Served(db: Db, m: Id) {
    && m in db.matches && db.matches[m].jobId in db.jobs && db.matches[m].userId in db.quota
    && db.matches[m].userId in db.profiles
  }

  /** Which generate tasks are refused, and how: by the payload, by the tables, by the attempt gate. */
  lemma GenerateRefusals(db: Db, task: Task, llm: LlmCall<()>, newId: Id, attempt: nat)
    requires task.GenerateTask? && AsksFor(task.attempt, attempt)
    ensures var end := GenerateResume(db, task, llm, newId);
            && (task.matchId == Missing ==> end.Done? && LogsOnly(db, end, GenerateStage, MissingMatchId))
            && (task.matchId == Malformed ==> end.Done? && LogsOnly(db, end, GenerateStage, InvalidMatchId))
            && (task.matchId.Parsed? && task.matchId.id !in db.matches ==>
                  end.Done? && LogsOnly(db, end, GenerateStage, NotFound))
            && (task.matchId.Parsed? && task.matchId.id in db.matches && !Admitted(db, task.matchId.id, attempt) ==>
                  end.Done? && LogsOnly(db, end, GenerateStage, SkippedExisting))
  {
    if task.matchId.Parsed? {
      assert GenerationsOf(db, task.matchId.id)
             == set g | g in db.generations && db.generations[g].matchId == task.matchId.id;
    }
  }

  /**
   What an admitted generate task comes to: not_found if and only if its job, user or profile is missing,
   and otherwise what the call does: an answer inserts the attempt's row and enqueues exactly its verify
   task, a permanent failure ends it, a retryable one raises.
   */
  lemma GenerateOutcome(db: Db, task: Task, llm: LlmCall<()>, newId: Id, m: Id, attempt: nat)
    requires task.GenerateTask? && task.matchId == Parsed(m) && m in db.matches
    requires AsksFor(task.attempt, attempt) && Admitted(db, m, attempt)
    ensures var end := GenerateResume(db, task, llm, newId);
            && (end.Done? && end.action == NotFound <==> !Served(db, m))
            && (!Served(db, m) ==> LogsOnly(db, end, GenerateStage, NotFound))
            && (Served(db, m) && llm.Answer? ==>
                  && end.Done? && end.action == Generated
                  && end.db == db.(generations := db.generations[newId := Generation(m, attempt, None, [])],
                                   events := end.db.events)
                  && LoggedOnce(db, end.db, GenerateStage, Generated)
                  && end.enqueued == [VerifyTask(Parsed(m), Parsed(newId), AttemptValue(attempt))])
            && (Served(db, m) && llm.PermanentFailure? ==>
                  end.Done? && LogsOnly(db, end, GenerateStage, LlmPermanentFailure))
            && (Served(db, m) && llm.RetryableFailure? ==>
                  end.Raised? && LogsOnly(db, end, GenerateStage, RetryableError))
  {
    assert GenerationsOf(db, m) == set g | g in db.generations && db.generations[g].matchId == m;
  }

  /** The first failure's regenerate task is admitted, so its resume is generated again when the call answers. */
  lemma RegenerateGenerates(w: World, task: Task, newId: Id)
    requires Inv(w) && task.GenerateTask? && TaskOk(w.db, w.requests, task) && task.attempt == AttemptValue(2)
    requires forall g :: g in w.db.generations && w.db.generations[g].matchId == task.matchId.id ==>
               w.db.generations[g].attempt == 1
    requires Served(w.db, task.matchId.id)
    ensures var end := GenerateResume(w.db, task, Answer(()), newId);
            && end.Done? && end.action == Generated
            && newId in end.db.generations
            && end.db.generations[newId] == Generation(task.matchId.id, 2, None, [])
            && end.enqueued == [VerifyTask(task.matchId, Parsed(newId), AttemptValue(2))]
  {
    var m := task.matchId.id;
    var rows := set g | g in w.db.generations && w.db.generations[g].matchId == m;
    AtMostOne(rows);
    GenerateOutcome(w.db, task, Answer(()), newId, m, 2);
  }

  // ---------------------------------------------------------------- verify

  /** The generation a payload means: the one it names, or else the latest of the match it names. */
  ghost predicate Means(db: Db, task: Task, latest: Option<Id>, g: Id)
    requires task.VerifyTask?
  {
    || (task.generationId == Parsed(g) && g in db.generations)
    || (task.generationId == Missing && task.matchId.Parsed? && task.matchId.id in db.matches && latest == Some(g))
  }

  /** Verify tasks refused for their payload, or because it means no generation. */
  lemma VerifyRefusals(db: Db, task: Task, checks: Checks, latest: Option<Id>)
    requires task.VerifyTask? && LatestIsOfMatch(db, task, latest)
    ensures var end := VerifyResume(db, task, checks, latest);
            && (task.generationId == Malformed ==> end.Done? && LogsOnly(db, end, VerifyStage, InvalidGenerationId))
            && (task.generationId == Missing && task.matchId == Missing ==>
                  end.Done? && LogsOnly(db, end, VerifyStage, MissingGenerationId))
            && (task.generationId == Missing && task.matchId == Malformed ==>
                  end.Done? && LogsOnly(db, end, VerifyStage, InvalidMatchId))
            && ((task.generationId.Parsed? || (task.generationId == Missing && task.matchId.Parsed?))
                && !(exists g :: Means(db, task, latest, g)) ==>
                  end.Done? && LogsOnly(db, end, VerifyStage, NotFound))
  {
    if task.generationId.Parsed? && task.generationId.id in db.generations {
      assert Means(db, task, latest, task.generationId.id);
    }
    if task.generationId == Missing && task.matchId.Parsed? && task.matchId.id in db.matches && latest.Some? {
      assert Means(db, task, latest, latest.value);
    }
  }

  /** The attempt a verify payload speaks of: its integer, or the row's own, or 1. */
  ghost predicate JudgedAs(raw: RawAttempt, row: Generation, attempt: nat) {
    match raw
    case NoAttempt => attempt == if row.attempt >= 1 then row.attempt else 1
    case AttemptValue(v) => attempt == if v >= 1 then v else 1
    case NotAnInt => attempt == 1
  }

  /** Its generation's match, job and profile are there. */
  ghost predicate Judgeable(db: Db, row: Generation) {
    && row.matchId in db.matches && db.matches[row.matchId].jobId in db.jobs
    && db.matches[row.matchId].userId in db.profiles
  }

  /**
   What a verify task comes to: skipped when its generation has a status; else not_found when the match,
   job or profile is missing; else one pass of the graph over that generation alone.
   */
  lemma VerifyOutcome(db: Db, task: Task, checks: Checks, latest: Option<Id>, g: Id, attempt: nat)
    requires task.VerifyTask? && LatestIsOfMatch(db, task, latest) && Means(db, task, latest, g)
    requires g in db.generations && JudgedAs(task.attempt, db.generations[g], attempt)
    ensures var end := VerifyResume(db, task, checks, latest);
            var row := db.generations[g];
            && (row.status.Some? ==> end.Done? && LogsOnly(db, end, VerifyStage, SkippedVerified))
            && (row.status.None? && !Judgeable(db, row) ==> end.Done? && LogsOnly(db, end, VerifyStage, NotFound))
            && (row.status.None? && Judgeable(db, row) ==> GraphEnds(db, g, attempt, checks, end))
  {
    var row := db.generations[g];
    if row.status.None? && row.matchId in db.matches {
      GraphDecision(db, g, db.matches[row.matchId], attempt, checks);
    }
  }

  /** So it is answered not_found, or skipped, in no other case. */
  lemma VerifyAnswersIff(db: Db, task: Task, checks: Checks, latest: Option<Id>, g: Id)
    requires task.VerifyTask? && LatestIsOfMatch(db, task, latest) && Means(db, task, latest, g)
    requires g in db.generations
    ensures var end := VerifyResume(db, task, checks, latest);
            var row := db.generations[g];
            && (end.Done? && end.action == SkippedVerified <==> row.status.Some?)
            && (end.Done? && end.action == NotFound <==> row.status.None? && !Judgeable(db, row))
  {
  }

  /** How a pass ends, by the outcomes of its stages. */
  lemma GraphAction(db: Db, g: Id, row: Match, attempt: nat, checks: Checks)
    requires g in db.generations
    ensures var end := RunGraph(db, g, row, attempt, checks);
            end.Done? ==>
              end.action == if HitsPermanent(checks) then LlmPermanentFailure
                            else if AllStagesPass(checks) then PassedAction
                            else if attempt < 2 then RegenerateEnqueued
                            else NeedsReviewAction
  {
  }

  /** The failures of one LLM stage: each violation after the stage's name, else the reason, else just "failed". */
  ghost predicate Names(named: seq<string>, stage: string, verdict: Verdict) {
    match verdict
    case VerdictPass => named == []
    case VerdictFail(violations, reason) =>
      if violations != [] then
        |named| == |violations| && forall i :: 0 <= i < |violations| ==> named[i] == stage + ": " + violations[i]
      else named == [stage + ": " + if reason != "" then reason else "failed"]
  }

  lemma VerdictFailuresName(stage: string, verdict: Verdict)
    ensures Names(VerdictFailures(stage, verdict), stage, verdict)
  {
    assert stage + ": failed" == stage + ": " + "failed";
  }

  /** The failures the graph stores: all that the stages name, in order, or stage 1's and a note on a permanent one. */
  lemma GraphFailures(db: Db, g: Id, row: Match, attempt: nat, checks: Checks)
    returns (grounding: seq<string>, coverage: seq<string>)
    requires g in db.generations
    ensures checks.grounding.Answer? ==> Names(grounding, "grounding", checks.grounding.value)
    ensures checks.coverage.Answer? ==> Names(coverage, "coverage", checks.coverage.value)
    ensures var end := RunGraph(db, g, row, attempt, checks);
            end.Done? ==>
              end.db.generations[g].failures
              == if HitsPermanent(checks) then checks.stage1 + ["verify: llm permanent failure"]
                 else checks.stage1 + grounding + coverage
  {
    grounding := if checks.grounding.Answer? then VerdictFailures("grounding", checks.grounding.value) else [];
    coverage := if checks.coverage.Answer? then VerdictFailures("coverage", checks.coverage.value) else [];
    if checks.grounding.Answer? {
      VerdictFailuresName("grounding", checks.grounding.value);
    }
    if checks.coverage.Answer? {
      VerdictFailuresName("coverage", checks.coverage.value);
    }
  }

  /** The log of a pass: one line for each stage that ran to an answer, then one for how it ended. */
  lemma GraphEvents(db: Db, g: Id, row: Match, attempt: nat, checks: Checks)
    requires g in db.generations
    ensures var end := RunGraph(db, g, row, attempt, checks);
            end.db.events
            == db.events + [Event(VerifyStage, if checks.stage1 == [] then Stage1Pass else Stage1Fail, Some(row))]
               + (if checks.grounding.Answer? then
                    [Event(VerifyStage, if checks.grounding.value.VerdictPass? then Stage2Pass else Stage2Fail,
                           Some(row))]
                  else [])
               + (if checks.grounding.Answer? && checks.coverage.Answer? then
                    [Event(VerifyStage, if checks.coverage.value.VerdictPass? then Stage3Pass else Stage3Fail,
                           Some(row))]
                  else [])
               + [Event(VerifyStage, if end.Done? then end.action else RetryableError, Some(row))]
  {
  }

  // ---------------------------------------------------------------- trigger and delivery

  /**
   A request is accepted if and only if the match exists, has no generation, and its user has quota left.
   Then exactly one first-attempt task goes out, and the commit takes exactly one unit from that user.
   */
  lemma TriggerOutcome(w: World, m: Id, commits: bool)
    ensures var w' := TriggerGenerate(w, m, commits);
            var db := w.db;
            var accepted := && m in db.matches
                            && (forall g :: g in db.generations ==> db.generations[g].matchId != m)
                            && var user := db.matches[m].userId;
                            user in db.quota && db.quota[user].Some? && db.quota[user].value >= 1;
            && (!accepted ==> w' == w)
            && (accepted ==>
                  var user := db.matches[m].userId;
                  && w'.requests == w.requests + [Request(m, user, commits)]
                  && w'.pending == w.pending + [GenerateTask(Parsed(m), NoAttempt, [], None)]
                  && w'.responses == w.responses
                  && w'.db == (if commits then db.(quota := db.quota[user := Some(db.quota[user].value - 1)]) else db))
  {
    if m in w.db.matches {
      assert GenerationsOf(w.db, m) == {} <==>
               forall g :: g in w.db.generations ==> w.db.generations[g].matchId != m by {
        if g :| g in w.db.generations && w.db.generations[g].matchId == m {
          assert g in GenerationsOf(w.db, m);
        }
      }
    }
  }

  /**
   A delivery commits its transaction unless it crashes before; it is answered, its tasks dispatched and
   an acknowledged task dropped, if and only if the transaction returned and the process lived on.
   */
  lemma DeliveryOutcome(w: World, i: nat, outside: Outside, fate: Fate)
    requires i < |w.pending| && HandleReady(w.db, w.pending[i], outside)
    ensures var end := Handle(w.db, w.pending[i], outside);
            var w' := DeliverTask(w, i, outside, fate);
            var answered := fate.Handled? && end.Done?;
            && w'.db == (if fate == CrashBeforeCommit then w.db else end.db)
            && w'.requests == w.requests
            && (|w'.responses| == |w.responses| + 1 <==> answered)
            && (!answered ==> w'.pending == w.pending && w'.responses == w.responses)
            && (answered ==>
                  && w'.responses == w.responses + [Response(w.pending[i], end.action)]
                  && multiset(w'.pending) + (if fate.acked then multiset{w.pending[i]} else multiset{})
                     == multiset(w.pending) + multiset(end.enqueued))
  {
    assert w.pending == w.pending[..i] + [w.pending[i]] + w.pending[i + 1..];
  }
}
