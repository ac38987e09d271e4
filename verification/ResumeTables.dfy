/**
 Rows, payloads and tasks shared by generate-resume and verify-resume
 (app/db/models.py, app/generate/service.py, app/verify/service.py).
 */
module ResumeTables {
  import opened Wrappers

  type Id = nat

  datatype VerifyStatus = Passed | Failed | NeedsReview

  datatype Match = Match(userId: Id, jobId: Id)

  datatype Generation =
    Generation(matchId: Id, attempt: nat, status: Option<VerifyStatus>, failures: seq<string>)

  datatype Stage = GenerateStage | VerifyStage

  datatype Action =
    | MissingMatchId | InvalidMatchId
    | MissingGenerationId | InvalidGenerationId
    | NotFound
    | SkippedExisting | Generated
    | SkippedVerified
    | Stage1Pass | Stage1Fail | Stage2Pass | Stage2Fail | Stage3Pass | Stage3Fail
    | PassedAction | RegenerateEnqueued | NeedsReviewAction
    | LlmPermanentFailure | RetryableError

  /** One pipeline_events row; the user and job columns are empty where the source has no match. */
  datatype Event = Event(stage: Stage, action: Action, match_: Option<Match>)

  /** The tables a resume transaction reads or writes. */
  datatype Db = Db(
    matches: map<Id, Match>,
    generations: map<Id, Generation>,
    jobs: set<Id>,
    profiles: set<Id>,
    quota: map<Id, Option<int>>,
    events: seq<Event>)

  /** A payload id: absent or empty, present but not a UUID, or a UUID. */
  datatype RawId = Missing | Malformed | Parsed(id: Id)

  datatype RawAttempt = NoAttempt | NotAnInt | AttemptValue(value: int)

  datatype Task =
    | GenerateTask(matchId: RawId, attempt: RawAttempt, violations: seq<string>, prior: Option<Id>)
    | VerifyTask(matchId: RawId, generationId: RawId, attempt: RawAttempt)

  const MAX_ATTEMPT: nat := 2

  function Max(a: int, b: int): int { if a >= b then a else b }

  function Record(db: Db, stage: Stage, action: Action, match_: Option<Match>): Db {
    db.(events := db.events + [Event(stage, action, match_)])
  }

  /** The ids of the generation rows of one match. */
  function GenerationsOf(db: Db, matchId: Id): set<Id> {
    set g | g in db.generations && db.generations[g].matchId == matchId
  }

  /** How a transaction ends: it returns a result to commit, or raises RetryableLLMError. */
  datatype TxEnd =
    | Done(db: Db, enqueued: seq<Task>, action: Action)
    | Raised(db: Db)

  datatype LlmCall<+T> = Answer(value: T) | PermanentFailure | RetryableFailure
}

/** generate-resume: the attempt gate, the insert and the verify enqueue (app/generate/service.py). */
module Generate {
  import opened Wrappers
  import opened ResumeTables

  /** The attempt a payload asks for: 1 unless it holds an integer, and never below 1. */
  function PayloadAttempt(raw: RawAttempt): nat {
    match raw
    case NoAttempt => 1
    case NotAnInt => 1
    case AttemptValue(v) => Max(1, v)
  }

  /** Past the gate: the rows the prompt needs, the call, and the insert with its verify task. */
  function RunAttempt(db: Db, m: Id, row: Match, attempt: nat, llm: LlmCall<()>, newId: Id): TxEnd {
    if row.jobId !in db.jobs || row.userId !in db.quota || row.userId !in db.profiles then
      Done(Record(db, GenerateStage, NotFound, Some(row)), [], NotFound)
    else
      match llm
      case PermanentFailure =>
        Done(Record(db, GenerateStage, LlmPermanentFailure, Some(row)), [], LlmPermanentFailure)
      case RetryableFailure =>
        Raised(Record(db, GenerateStage, RetryableError, Some(row)))
      case Answer(_) =>
        var inserted := db.(generations := db.generations[newId := Generation(m, attempt, None, [])]);
        Done(Record(inserted, GenerateStage, Generated, Some(row)),
             [VerifyTask(Parsed(m), Parsed(newId), AttemptValue(attempt))],
             Generated)
  }

  function GenerateResume(db: Db, task: Task, llm: LlmCall<()>, newId: Id): TxEnd
    requires task.GenerateTask?
  {
    match task.matchId
    case Missing => Done(Record(db, GenerateStage, MissingMatchId, None), [], MissingMatchId)
    case Malformed => Done(Record(db, GenerateStage, InvalidMatchId, None), [], InvalidMatchId)
    case Parsed(m) =>
      if m !in db.matches then
        Done(Record(db, GenerateStage, NotFound, None), [], NotFound)
      else
        var row := db.matches[m];
        var attempt := PayloadAttempt(task.attempt);
        if |GenerationsOf(db, m)| >= attempt || attempt > MAX_ATTEMPT then
          Done(Record(db, GenerateStage, SkippedExisting, Some(row)), [], SkippedExisting)
        else RunAttempt(db, m, row, attempt, llm, newId)
  }
}

/** verify-resume: skip-if-verified, three stages and the pass/regenerate/review decision (app/verify). */
module Verify {
  import opened Wrappers
  import opened ResumeTables

  datatype Verdict = VerdictPass | VerdictFail(violations: seq<string>, reason: string)

  /** The outcome of stage 1 and of the two LLM calls (the second is only made if the first answers). */
  datatype Checks = Checks(stage1: seq<string>, grounding: LlmCall<Verdict>, coverage: LlmCall<Verdict>)

  const PERMANENT_NOTE := "verify: llm permanent failure"

  /** The named failures of one failing LLM stage; a failing verdict always names at least one. */
  function Prefixed(stage: string, violations: seq<string>, reason: string): (named: seq<string>)
    ensures named != []
    ensures |violations| > 0 ==> |named| == |violations|
  {
    if violations != [] then seq(|violations|, i requires 0 <= i < |violations| => stage + ": " + violations[i])
    else if reason != "" then [stage + ": " + reason]
    else [stage + ": failed"]
  }

  function VerdictFailures(stage: string, verdict: Verdict): seq<string> {
    if verdict.VerdictFail? then Prefixed(stage, verdict.violations, verdict.reason) else []
  }

  function VerifyAttempt(raw: RawAttempt, generation: Generation): nat {
    match raw
    case NoAttempt => Max(1, generation.attempt)
    case NotAnInt => 1
    case AttemptValue(v) => Max(1, v)
  }

  /** The row a payload points at: by generation id, else the match's latest row (`latest` names it). */
  function TargetGeneration(db: Db, task: Task, latest: Option<Id>): Option<Id>
    requires task.VerifyTask?
  {
    if task.generationId.Parsed? then
      (if task.generationId.id in db.generations then Some(task.generationId.id) else None)
    else if !task.matchId.Parsed? || task.matchId.id !in db.matches then None
    else latest
  }

  /** `latest` is some generation of the payload's match, and is None exactly when it has none. */
  predicate LatestIsOfMatch(db: Db, task: Task, latest: Option<Id>)
    requires task.VerifyTask?
  {
    match latest
    case Some(g) => task.matchId.Parsed? && g in GenerationsOf(db, task.matchId.id)
    case None => task.matchId.Parsed? ==> GenerationsOf(db, task.matchId.id) == {}
  }

  function WriteStatus(db: Db, g: Id, status: VerifyStatus, failures: seq<string>): Db
    requires g in db.generations
  {
    db.(generations := db.generations[g := db.generations[g].(status := Some(status), failures := failures)])
  }

  /** fail_safe_node: an unverifiable resume goes to review, keeping only the stage 1 names. */
  function FailSafe(db: Db, g: Id, row: Match, checks: Checks): TxEnd
    requires g in db.generations
  {
    var written := WriteStatus(db, g, NeedsReview, checks.stage1 + [PERMANENT_NOTE]);
    Done(Record(written, VerifyStage, LlmPermanentFailure, Some(row)), [], LlmPermanentFailure)
  }

  /** decide_node */
  function Decide(db: Db, g: Id, row: Match, attempt: nat, named: seq<string>): TxEnd
    requires g in db.generations
  {
    if named == [] then
      Done(Record(WriteStatus(db, g, Passed, []), VerifyStage, PassedAction, Some(row)), [], PassedAction)
    else if attempt < MAX_ATTEMPT then
      Done(Record(WriteStatus(db, g, Failed, named), VerifyStage, RegenerateEnqueued, Some(row)),
           [GenerateTask(Parsed(db.generations[g].matchId), AttemptValue(attempt + 1), named, Some(g))],
           RegenerateEnqueued)
    else
      Done(Record(WriteStatus(db, g, NeedsReview, named), VerifyStage, NeedsReviewAction, Some(row)),
           [], NeedsReviewAction)
  }

  /** coverage_node and everything after it, given the failures named so far. */
  function FromCoverage(db: Db, g: Id, row: Match, attempt: nat, checks: Checks, named: seq<string>): TxEnd
    requires g in db.generations
  {
    match checks.coverage
    case PermanentFailure => FailSafe(db, g, row, checks)
    case RetryableFailure => Raised(Record(db, VerifyStage, RetryableError, Some(row)))
    case Answer(verdict) =>
      var action := if verdict.VerdictFail? then Stage3Fail else Stage3Pass;
      Decide(Record(db, VerifyStage, action, Some(row)), g, row, attempt,
             named + VerdictFailures("coverage", verdict))
  }

  /** grounding_node and everything after it. */
  function FromGrounding(db: Db, g: Id, row: Match, attempt: nat, checks: Checks): TxEnd
    requires g in db.generations
  {
    match checks.grounding
    case PermanentFailure => FailSafe(db, g, row, checks)
    case RetryableFailure => Raised(Record(db, VerifyStage, RetryableError, Some(row)))
    case Answer(verdict) =>
      var action := if verdict.VerdictFail? then Stage2Fail else Stage2Pass;
      FromCoverage(Record(db, VerifyStage, action, Some(row)), g, row, attempt, checks,
                   checks.stage1 + VerdictFailures("grounding", verdict))
  }

  /** The graph from deterministic_node on. */
  function RunGraph(db: Db, g: Id, row: Match, attempt: nat, checks: Checks): TxEnd
    requires g in db.generations
  {
    var action := if checks.stage1 != [] then Stage1Fail else Stage1Pass;
    FromGrounding(Record(db, VerifyStage, action, Some(row)), g, row, attempt, checks)
  }

  function MissingAction(task: Task): Action
    requires task.VerifyTask?
  {
    if task.generationId.Missing? && task.matchId.Missing? then MissingGenerationId
    else if task.generationId.Malformed? then InvalidGenerationId
    else if task.generationId.Missing? && task.matchId.Malformed? then InvalidMatchId
    else NotFound
  }

  function VerifyResume(db: Db, task: Task, checks: Checks, latest: Option<Id>): TxEnd
    requires task.VerifyTask?
    requires LatestIsOfMatch(db, task, latest)
  {
    if MissingAction(task) != NotFound then
      // Rejected by the handler before a session is opened.
      Done(Record(db, VerifyStage, MissingAction(task), None), [], MissingAction(task))
    else
      match TargetGeneration(db, task, latest)
      case None => Done(Record(db, VerifyStage, NotFound, None), [], NotFound)
      case Some(g) =>
        var generation := db.generations[g];
        var row := if generation.matchId in db.matches then Some(db.matches[generation.matchId]) else None;
        if generation.status.Some? then
          Done(Record(db, VerifyStage, SkippedVerified, row), [], SkippedVerified)
        else if row.None? then
          Done(Record(db, VerifyStage, NotFound, None), [], NotFound)
        else if row.value.jobId !in db.jobs || row.value.userId !in db.profiles then
          Done(Record(db, VerifyStage, NotFound, row), [], NotFound)
        else
          RunGraph(db, g, row.value, VerifyAttempt(task.attempt, generation), checks)
  }

  /** All three stages passed. */
  predicate AllStagesPass(checks: Checks) {
    && checks.stage1 == []
    && checks.grounding == Answer(VerdictPass)
    && checks.coverage == Answer(VerdictPass)
  }

  /** Some call that was reached failed for good. */
  predicate HitsPermanent(checks: Checks) {
    checks.grounding.PermanentFailure? || (checks.grounding.Answer? && checks.coverage.PermanentFailure?)
  }

  predicate HitsRetryable(checks: Checks) {
    checks.grounding.RetryableFailure? || (checks.grounding.Answer? && checks.coverage.RetryableFailure?)
  }

  /** The status the graph gives an undecided row. */
  function DecidedStatus(attempt: nat, checks: Checks): Option<VerifyStatus> {
    if HitsRetryable(checks) then None
    else if HitsPermanent(checks) then Some(NeedsReview)
    else if AllStagesPass(checks) then Some(Passed)
    else if attempt < MAX_ATTEMPT then Some(Failed)
    else Some(NeedsReview)
  }

  /** `end` touches no row but g, and of g no more than its status and failures. */
  ghost predicate TouchesOnly(db: Db, g: Id, end: TxEnd)
    requires g in db.generations
  {
    && end.db == db.(generations := end.db.generations, events := end.db.events)
    && end.db.generations.Keys == db.generations.Keys
    && (forall h :: h in db.generations && h != g ==> end.db.generations[h] == db.generations[h])
    && end.db.generations[g].matchId == db.generations[g].matchId
    && end.db.generations[g].attempt == db.generations[g].attempt
  }

  /** The tasks of a decision: attempt + 1 for a failed row, with the failures that row now names. */
  ghost predicate EnqueuesByStatus(db: Db, g: Id, attempt: nat, end: TxEnd)
    requires g in db.generations && g in end.db.generations && end.Done?
  {
    end.enqueued == if end.db.generations[g].status == Some(Failed)
                    then [GenerateTask(Parsed(db.generations[g].matchId), AttemptValue(attempt + 1),
                                       end.db.generations[g].failures, Some(g))]
                    else []
  }

  /** One pass of the graph over an undecided row, as a table over the outcomes of the three stages. */
  ghost predicate GraphEnds(db: Db, g: Id, attempt: nat, checks: Checks, end: TxEnd)
    requires g in db.generations
  {
    && TouchesOnly(db, g, end)
    && (end.Raised? <==> HitsRetryable(checks))
    && (end.Raised? ==> end.db.generations == db.generations)
    && end.db.generations[g].status == DecidedStatus(attempt, checks)
    && (end.Done? ==> EnqueuesByStatus(db, g, attempt, end) && end.action != NotFound)
    && (end.db.generations[g].status == Some(Passed) ==> end.db.generations[g].failures == [])
    && (end.db.generations[g].status in {Some(Failed), Some(NeedsReview)} ==>
          end.db.generations[g].failures != [])
  }

  /**
   The status the graph writes, as a decision table over the three stages: nothing on a retryable
   error; review on a permanent one; passed exactly when every stage passed; otherwise failed (and
   one regenerate task) on a first attempt and review on the last.
   */
  lemma GraphDecision(db: Db, g: Id, row: Match, attempt: nat, checks: Checks)
    requires g in db.generations
    requires db.generations[g].status.None?
    ensures GraphEnds(db, g, attempt, checks, RunGraph(db, g, row, attempt, checks))
  {
  }
}
