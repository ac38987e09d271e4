/**
 The handlers themselves, in the form they have in the source: a session whose tables are updated in
 place, a verify graph whose nodes update graph state, a buffered queue that is flushed after commit.
 Each is proved to do exactly what the step functions of Generate, Verify and ResumeRuns say.
 */
module ResumeHandlers {
  import opened Wrappers
  import opened ResumeTables
  import opened TaskQueue
  import opened Generate
  import opened Verify
  import opened ResumeRuns

  /** The tables as one transaction sees them. */
  class Session {
    var matches: map<Id, Match>
    var generations: map<Id, Generation>
    var jobs: set<Id>
    var profiles: set<Id>
    var quota: map<Id, Option<int>>
    var events: seq<Event>

    ghost function Tables(): Db
      reads this
    {
      Db(matches, generations, jobs, profiles, quota, events)
    }

    constructor Begin(store: Session)
      ensures Tables() == store.Tables()
    {
      matches, generations, jobs := store.matches, store.generations, store.jobs;
      profiles, quota, events := store.profiles, store.quota, store.events;
    }

    /** Makes the transaction's tables the committed ones. */
    method CommitTo(store: Session)
      requires store != this
      modifies store
      ensures store.Tables() == Tables()
    {
      store.matches, store.generations, store.jobs := matches, generations, jobs;
      store.profiles, store.quota, store.events := profiles, quota, events;
    }

    method RecordEvent(stage: Stage, action: Action, match_: Option<Match>)
      modifies this`events
      ensures Tables() == Record(old(Tables()), stage, action, match_)
    {
      events := events + [Event(stage, action, match_)];
    }

    method Insert(g: Id, row: Generation)
      modifies this`generations
      ensures Tables() == old(Tables()).(generations := old(generations)[g := row])
    {
      generations := generations[g := row];
    }

    method WriteStatus(g: Id, status: VerifyStatus, failures: seq<string>)
      requires g in generations
      modifies this`generations
      ensures Tables() == Verify.WriteStatus(old(Tables()), g, status, failures)
    {
      generations := generations[g := generations[g].(status := Some(status), failures := failures)];
    }

    /** UPDATE ... WHERE quota_remaining IS NOT NULL AND quota_remaining > 0; true when a row changed. */
    method TryConsumeQuota(user: Id) returns (consumed: bool)
      modifies this`quota
      ensures consumed <==> HasQuota(old(Tables()), user)
      ensures Tables() == if consumed then ConsumeQuota(old(Tables()), user) else old(Tables())
    {
      consumed := user in quota && quota[user].Some? && quota[user].value > 0;
      if consumed {
        quota := quota[user := Some(quota[user].value - 1)];
      }
    }
  }

  /** The body of generate-resume; `raised` stands for RetryableLLMError. */
  method GenerateResume(session: Session, task: Task, queue: BufferedTaskQueue<Task>, llm: LlmCall<()>, newId: Id)
    returns (raised: bool, action: Action)
    requires task.GenerateTask?
    requires newId !in session.generations
    modifies session, queue
    ensures var end := Generate.GenerateResume(old(session.Tables()), task, llm, newId);
            && session.Tables() == end.db
            && (raised <==> end.Raised?)
            && (end.Done? ==> action == end.action)
            && queue.pending == old(queue.pending) + (if end.Done? then end.enqueued else [])
  {
    raised := false;
    if !task.matchId.Parsed? {
      action := if task.matchId.Missing? then MissingMatchId else InvalidMatchId;
      session.RecordEvent(GenerateStage, action, None);
      return;
    }
    var m := task.matchId.id;
    if m !in session.matches {
      session.RecordEvent(GenerateStage, NotFound, None);
      return false, NotFound;
    }
    var row := session.matches[m];
    var attempt := PayloadAttempt(task.attempt);
    var existing := set g | g in session.generations && session.generations[g].matchId == m;
    assert existing == GenerationsOf(session.Tables(), m);
    if |existing| >= attempt || attempt > MAX_ATTEMPT {
      session.RecordEvent(GenerateStage, SkippedExisting, Some(row));
      return false, SkippedExisting;
    }
    raised, action := RunAttempt(session, m, row, attempt, queue, llm, newId);
  }

  /** The part below the attempt gate. */
  method RunAttempt(session: Session, m: Id, row: Match, attempt: nat, queue: BufferedTaskQueue<Task>,
                    llm: LlmCall<()>, newId: Id)
    returns (raised: bool, action: Action)
    modifies session, queue
    ensures var end := Generate.RunAttempt(old(session.Tables()), m, row, attempt, llm, newId);
            && session.Tables() == end.db
            && (raised <==> end.Raised?)
            && (end.Done? ==> action == end.action)
            && queue.pending == old(queue.pending) + (if end.Done? then end.enqueued else [])
  {
    raised := false;
    if row.jobId !in session.jobs || row.userId !in session.quota || row.userId !in session.profiles {
      session.RecordEvent(GenerateStage, NotFound, Some(row));
      return false, NotFound;
    }
    match llm
    case PermanentFailure =>
      session.RecordEvent(GenerateStage, LlmPermanentFailure, Some(row));
      action := LlmPermanentFailure;
    case RetryableFailure =>
      session.RecordEvent(GenerateStage, RetryableError, Some(row));
      raised, action := true, RetryableError;
    case Answer(_) =>
      session.Insert(newId, Generation(m, attempt, None, []));
      queue.Enqueue(VerifyTask(Parsed(m), Parsed(newId), AttemptValue(attempt)));
      session.RecordEvent(GenerateStage, Generated, Some(row));
      action := Generated;
  }

  /** The LangGraph workflow of one verify delivery: nodes that update shared state, and two branches. */
  class VerifyGraph {
    const session: Session
    const queue: BufferedTaskQueue<Task>
    const generation: Id
    const row: Match
    const attempt: nat
    const checks: Checks
    var stage1: seq<string>
    var llmFailures: seq<string>
    var llmPermanent: bool
    var action: Action

    constructor (session: Session, queue: BufferedTaskQueue<Task>, generation: Id, row: Match, attempt: nat,
                 checks: Checks)
      ensures this.session == session && this.queue == queue && this.generation == generation
      ensures this.row == row && this.attempt == attempt && this.checks == checks
    {
      this.session, this.queue, this.generation := session, queue, generation;
      this.row, this.attempt, this.checks := row, attempt, checks;
      stage1, llmFailures, llmPermanent, action := [], [], false, NotFound;
    }

    method DeterministicNode()
      modifies this, session`events
      ensures session.Tables() == Record(old(session.Tables()), VerifyStage,
                                         if checks.stage1 != [] then Stage1Fail else Stage1Pass, Some(row))
      ensures stage1 == checks.stage1 && llmFailures == [] && !llmPermanent
    {
      stage1 := checks.stage1;
      session.RecordEvent(VerifyStage, if stage1 != [] then Stage1Fail else Stage1Pass, Some(row));
      llmFailures, llmPermanent := [], false;
    }

    /** One LLM stage: the same shape for grounding and coverage. */
    method LlmNode(stage: string, call: LlmCall<Verdict>, pass: Action, fail: Action) returns (raised: bool)
      modifies this, session`events
      ensures stage1 == old(stage1)
      ensures raised <==> call.RetryableFailure?
      ensures call.Answer? ==>
                && session.Tables() == Record(old(session.Tables()), VerifyStage,
                                              if call.value.VerdictFail? then fail else pass, Some(row))
                && llmFailures == old(llmFailures) + VerdictFailures(stage, call.value)
                && !llmPermanent
      ensures call.PermanentFailure? ==> session.Tables() == old(session.Tables()) && llmPermanent
      ensures raised ==> session.Tables() == Record(old(session.Tables()), VerifyStage, RetryableError, Some(row))
    {
      raised := false;
      match call
      case PermanentFailure => llmPermanent := true;
      case RetryableFailure =>
        session.RecordEvent(VerifyStage, RetryableError, Some(row));
        raised := true;
      case Answer(verdict) =>
        session.RecordEvent(VerifyStage, if verdict.VerdictFail? then fail else pass, Some(row));
        if verdict.VerdictFail? {
          llmFailures := llmFailures + Prefixed(stage, verdict.violations, verdict.reason);
        }
        llmPermanent := false;
    }

    method FailSafeNode()
      requires generation in session.generations && stage1 == checks.stage1
      modifies this`action, session
      ensures session.Tables() == FailSafe(old(session.Tables()), generation, row, checks).db
      ensures action == LlmPermanentFailure
    {
      session.WriteStatus(generation, NeedsReview, stage1 + [PERMANENT_NOTE]);
      session.RecordEvent(VerifyStage, LlmPermanentFailure, Some(row));
      action := LlmPermanentFailure;
    }

    method DecideNode()
      requires generation in session.generations
      modifies this`action, session, queue
      ensures var end := Decide(old(session.Tables()), generation, row, attempt, stage1 + llmFailures);
              && session.Tables() == end.db
              && action == end.action
              && queue.pending == old(queue.pending) + end.enqueued
    {
      var named := stage1 + llmFailures;
      if named == [] {
        session.WriteStatus(generation, Passed, []);
        action := PassedAction;
      } else if attempt < MAX_ATTEMPT {
        session.WriteStatus(generation, Failed, named);
        queue.Enqueue(GenerateTask(Parsed(session.generations[generation].matchId), AttemptValue(attempt + 1),
                                   named, Some(generation)));
        action := RegenerateEnqueued;
      } else {
        session.WriteStatus(generation, NeedsReview, named);
        action := NeedsReviewAction;
      }
      session.RecordEvent(VerifyStage, action, Some(row));
    }

    /** START -> deterministic -> grounding -> (fail_safe | coverage -> (fail_safe | decide)) -> END */
    method Run() returns (raised: bool)
      requires generation in session.generations
      modifies this, session, queue
      ensures var end := RunGraph(old(session.Tables()), generation, row, attempt, checks);
              && session.Tables() == end.db
              && (raised <==> end.Raised?)
              && (end.Done? ==> action == end.action)
              && queue.pending == old(queue.pending) + (if end.Done? then end.enqueued else [])
    {
      DeterministicNode();
      raised := RunFromGrounding();
    }

    /** From the grounding stage to the first router. */
    method RunFromGrounding() returns (raised: bool)
      requires generation in session.generations && stage1 == checks.stage1 && llmFailures == []
      modifies this, session, queue
      ensures var end := FromGrounding(old(session.Tables()), generation, row, attempt, checks);
              && session.Tables() == end.db
              && (raised <==> end.Raised?)
              && (end.Done? ==> action == end.action)
              && queue.pending == old(queue.pending) + (if end.Done? then end.enqueued else [])
    {
      raised := LlmNode("grounding", checks.grounding, Stage2Pass, Stage2Fail);
      if raised {
        return;
      }
      if llmPermanent {
        FailSafeNode();
        return;
      }
      assert llmFailures == VerdictFailures("grounding", checks.grounding.value);
      raised := RunFromCoverage();
    }

    /** Past the first router: the coverage stage and the second one. */
    method RunFromCoverage() returns (raised: bool)
      requires generation in session.generations && stage1 == checks.stage1
      modifies this, session, queue
      ensures var end := FromCoverage(old(session.Tables()), generation, row, attempt, checks,
                                      old(stage1) + old(llmFailures));
              && session.Tables() == end.db
              && (raised <==> end.Raised?)
              && (end.Done? ==> action == end.action)
              && queue.pending == old(queue.pending) + (if end.Done? then end.enqueued else [])
    {
      raised := LlmNode("coverage", checks.coverage, Stage3Pass, Stage3Fail);
      if raised {
        return;
      }
      if llmPermanent {
        FailSafeNode();
        return;
      }
      assert stage1 + llmFailures
             == old(stage1) + old(llmFailures) + VerdictFailures("coverage", checks.coverage.value);
      DecideNode();
    }
  }

  method VerifyResume(session: Session, task: Task, queue: BufferedTaskQueue<Task>, checks: Checks, latest: Option<Id>)
    returns (raised: bool, action: Action)
    requires task.VerifyTask?
    requires LatestIsOfMatch(session.Tables(), task, latest)
    modifies session, queue
    ensures var end := Verify.VerifyResume(old(session.Tables()), task, checks, latest);
            && session.Tables() == end.db
            && (raised <==> end.Raised?)
            && (end.Done? ==> action == end.action)
            && queue.pending == old(queue.pending) + (if end.Done? then end.enqueued else [])
  {
    raised := false;
    action := MissingAction(task);
    if action != NotFound {
      session.RecordEvent(VerifyStage, action, None);
      return;
    }
    var target := latest;
    if task.generationId.Parsed? {
      target := if task.generationId.id in session.generations then Some(task.generationId.id) else None;
    } else if !task.matchId.Parsed? || task.matchId.id !in session.matches {
      target := None;
    }
    if target.None? {
      session.RecordEvent(VerifyStage, NotFound, None);
      return;
    }
    var g := target.value;
    var generation := session.generations[g];
    var row := if generation.matchId in session.matches then Some(session.matches[generation.matchId]) else None;
    if generation.status.Some? {
      session.RecordEvent(VerifyStage, SkippedVerified, row);
      action := SkippedVerified;
      return;
    }
    if row.None? {
      session.RecordEvent(VerifyStage, NotFound, None);
      return;
    }
    if row.value.jobId !in session.jobs || row.value.userId !in session.profiles {
      session.RecordEvent(VerifyStage, NotFound, row);
      return;
    }
    var graph := new VerifyGraph(session, queue, g, row.value, VerifyAttempt(task.attempt, generation), checks);
    raised := graph.Run();
    action := graph.action;
  }

  /** The transaction of one delivery, whichever of the two handlers it goes to. */
  method RunTransaction(tx: Session, task: Task, buffer: BufferedTaskQueue<Task>, outside: Outside)
    returns (raised: bool, action: Action, ghost end: TxEnd)
    requires HandleReady(tx.Tables(), task, outside)
    modifies tx, buffer
    ensures end == Handle(old(tx.Tables()), task, outside)
    ensures tx.Tables() == end.db
    ensures raised <==> end.Raised?
    ensures end.Done? ==> action == end.action
    ensures buffer.pending == old(buffer.pending) + (if end.Done? then end.enqueued else [])
  {
    end := Handle(tx.Tables(), task, outside);
    if task.GenerateTask? {
      raised, action := GenerateResume(tx, task, buffer, outside.generated, outside.newId);
    } else {
      raised, action := VerifyResume(tx, task, buffer, outside.checks, outside.latest);
    }
  }

  /**
   One delivery, as the two handlers order it: run, commit (also before re-raising a retryable
   error), and only then flush. `fate` says where the process dies, if it does.
   */
  method HandleDelivery(store: Session, inner: DeliveryQueue<Task>, task: Task, outside: Outside, fate: Fate)
    returns (response: Option<Action>)
    requires HandleReady(store.Tables(), task, outside)
    modifies store, inner
    ensures var before := old(store.Tables());
            var end := Handle(before, task, outside);
            && store.Tables() == (if fate.CrashBeforeCommit? then before else end.db)
            && (response.Some? <==> fate.Handled? && end.Done?)
            && (response.Some? ==> response == Some(end.action))
            && inner.dispatched == old(inner.dispatched) + (if response.Some? then end.enqueued else [])
  {
    var buffer := new BufferedTaskQueue<Task>(inner);
    var tx := new Session.Begin(store);
    response := Transact(tx, store, buffer, task, outside, fate);
  }

  /** The transaction and its end, in a session and with a buffer opened for it. */
  method Transact(tx: Session, store: Session, buffer: BufferedTaskQueue<Task>, task: Task, outside: Outside,
                  fate: Fate)
    returns (response: Option<Action>)
    requires tx != store && tx.Tables() == store.Tables() && buffer.pending == []
    requires HandleReady(tx.Tables(), task, outside)
    modifies tx, store, buffer, buffer.inner
    ensures var before := old(tx.Tables());
            var end := Handle(before, task, outside);
            && store.Tables() == (if fate.CrashBeforeCommit? then before else end.db)
            && (response.Some? <==> fate.Handled? && end.Done?)
            && (response.Some? ==> response == Some(end.action))
            && buffer.inner.dispatched == old(buffer.inner.dispatched) + (if response.Some? then end.enqueued else [])
  {
    var raised, action, end := RunTransaction(tx, task, buffer, outside);
    var answered := CommitThenFlush(tx, store, buffer, raised, fate);
    response := if answered then Some(action) else None;
  }

  /** How a delivery ends: the commit, then the flush unless the transaction raised. */
  method CommitThenFlush(tx: Session, store: Session, buffer: BufferedTaskQueue<Task>, raised: bool, fate: Fate)
    returns (answered: bool)
    requires tx != store
    modifies store, buffer, buffer.inner
    ensures store.Tables() == old(if fate.CrashBeforeCommit? then store.Tables() else tx.Tables())
    ensures answered <==> fate.Handled? && !raised
    ensures buffer.inner.dispatched == old(buffer.inner.dispatched) + (if answered then old(buffer.pending) else [])
  {
    if fate.CrashBeforeCommit? {
      return false;
    }
    tx.CommitTo(store);
    if raised || fate.CrashBeforeFlush? {
      return false;
    }
    buffer.Flush();
    return true;
  }

  /**
   trigger_generate followed by the commit at the end of its session. The task goes straight to the
   delivery queue, so it is out even when the commit fails.
   */
  method TriggerGenerate(store: Session, inner: DeliveryQueue<Task>, m: Id, commits: bool, ghost requests: seq<Request>)
    returns (accepted: bool)
    modifies store, inner
    ensures var before := World(old(store.Tables()), old(inner.dispatched), [], requests);
            var after := ResumeRuns.TriggerGenerate(before, m, commits);
            && store.Tables() == after.db
            && inner.dispatched == after.pending
            && (accepted <==> |after.requests| == |requests| + 1)
  {
    if m !in store.matches {
      return false;
    }
    var user := store.matches[m].userId;
    var existing := set g | g in store.generations && store.generations[g].matchId == m;
    assert existing == GenerationsOf(store.Tables(), m);
    if existing != {} {
      return false;
    }
    var tx := new Session.Begin(store);
    accepted := tx.TryConsumeQuota(user);
    if !accepted {
      return;
    }
    inner.Enqueue(GenerateTask(Parsed(m), NoAttempt, [], None));
    if commits {
      tx.CommitTo(store);
    }
  }
}
