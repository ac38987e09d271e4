/**
 Runs of match cycles and of the screen and extract deliveries they lead to (app/handlers.py).

 A world holds the matches as the cycles write them, the same matches among the tables of the paid
 writes, the deliveries in flight and the tasks waiting. A cycle is one atomic transaction; the paid
 writes read and write in separate steps that interleave freely with cycles and with each other.
 */
module MatchRuns {
  import opened Wrappers
  import opened TaskQueue
  import opened MatchCycle
  import MatchBatch
  import PaidWrites
  import PaidWriteRuns

  datatype World = World(rows: seq<MatchRow>, paid: PaidWriteRuns.World, pending: seq<Task>)

  /** Where a delivery stops. Only Handled flushes. */
  datatype Fate = CrashBeforeCommit | Fails | CrashBeforeFlush | Handled

  datatype Step =
    | Cycle(input: Input, fate: Fate)
    | Deliver(index: nat, step: PaidWriteRuns.Step)  // a waiting task is delivered, and stays until it is dropped
    | Drop(index: nat)                               // acknowledged, or given up
    | Other(step: PaidWriteRuns.Step)                // a commit, a crash, an ingest, an analyze delivery

  /** A fresh match: nothing screened yet. */
  function Unscreened(rows: seq<MatchRow>, first: nat, m: nat): PaidWrites.MatchRow
    requires first <= m < first + |rows|
  {
    PaidWrites.MatchRow(rows[m - first].userId, rows[m - first].jobId, None)
  }

  /** The matches table with these rows appended. */
  function Appended(t: PaidWrites.Tables, rows: seq<MatchRow>, first: nat): PaidWrites.Tables {
    t.(matches := t.matches + map m: nat | first <= m < first + |rows| :: Unscreened(rows, first, m))
  }

  function Committed(w: World, input: Input): World {
    w.(rows := w.rows + NewRows(w.rows, input),
       paid := w.paid.(tables := Appended(w.paid.tables, NewRows(w.rows, input), |w.rows|)))
  }

  /** The step a task's delivery begins with. */
  predicate Begins(task: Task, step: PaidWriteRuns.Step) {
    match task
    case ScreenTask(_, _, m) => step.BeginScreen? && step.matchId == m
    case ExtractTask(j) => step.BeginExtract? && step.job == j
  }

  predicate Enabled(w: World, s: Step) {
    match s
    // The candidate query selects from the committed jobs.
    case Cycle(input, _) => forall c :: c in input.candidates ==> c.jobId in w.paid.tables.jobs
    case Deliver(i, step) => i < |w.pending| && Begins(w.pending[i], step) && PaidWriteRuns.Enabled(w.paid, step)
    case Drop(i) => i < |w.pending|
    case Other(step) => !step.BeginScreen? && !step.BeginExtract? && PaidWriteRuns.Enabled(w.paid, step)
  }

  function Next(w: World, s: Step): World
    requires Enabled(w, s)
  {
    match s
    case Cycle(input, fate) =>
      (match fate
       case CrashBeforeCommit => w
       case Fails => w
       case CrashBeforeFlush => Committed(w, input)
       case Handled => Committed(w, input).(pending := w.pending + Buffered(w.rows, input)))
    case Deliver(_, step) => w.(paid := PaidWriteRuns.Next(w.paid, step))
    case Drop(i) => w.(pending := w.pending[..i] + w.pending[i + 1..])
    case Other(step) => w.(paid := PaidWriteRuns.Next(w.paid, step))
  }

  ghost predicate IsRun(worlds: seq<World>, steps: seq<Step>) {
    && |worlds| == |steps| + 1
    && forall i :: 0 <= i < |steps| ==> Enabled(worlds[i], steps[i]) && worlds[i + 1] == Next(worlds[i], steps[i])
  }

  /** No match, nothing waiting, nothing recorded. */
  predicate Initial(w: World) {
    w.rows == [] && w.pending == [] && w.paid.tables.matches == map[] && w.paid.tables.events == []
  }

  // ---------------------------------------------------------------- invariant

  /** The row a task names is committed, and it is that user's and that job's. */
  predicate TaskFinds(rows: seq<MatchRow>, t: PaidWrites.Tables, task: Task) {
    match task
    case ScreenTask(user, job, m) =>
      && m < |rows| && rows[m].userId == user && rows[m].jobId == job
      && m in t.matches && t.matches[m].userId == user && t.matches[m].jobId == job
    case ExtractTask(job) => job in t.jobs
  }

  /** Both views of the matches table hold the same rows. */
  ghost predicate SameMatches(rows: seq<MatchRow>, t: PaidWrites.Tables) {
    && (forall m: nat :: m in t.matches <==> m < |rows|)
    && (forall m :: m in t.matches ==> t.matches[m].userId == rows[m].userId && t.matches[m].jobId == rows[m].jobId)
  }

  /** The events of a screen or extract delivery that did not find its own row. */
  predicate FoundNothing(e: PaidWrites.Event) {
    e.kind in {PaidWrites.Screen, PaidWrites.Extract} && e.action == PaidWrites.NotFound && e.subject == None
  }

  ghost predicate Inv(w: World) {
    && SameMatches(w.rows, w.paid.tables)
    && (forall task :: task in w.pending ==> TaskFinds(w.rows, w.paid.tables, task))
    && (forall e :: e in w.paid.tables.events ==> !FoundNothing(e))
  }

  /** The tables only grow: no row goes, and none changes its user or job. */
  ghost predicate OnlyGrows(before: PaidWrites.Tables, after: PaidWrites.Tables) {
    && before.jobs.Keys <= after.jobs.Keys && before.matches.Keys == after.matches.Keys
    && forall m :: m in before.matches ==>
         after.matches[m].userId == before.matches[m].userId && after.matches[m].jobId == before.matches[m].jobId
  }

  lemma PaidStepGrows(w: PaidWriteRuns.World, s: PaidWriteRuns.Step)
    requires PaidWriteRuns.Enabled(w, s)
    ensures OnlyGrows(w.tables, PaidWriteRuns.Next(w, s).tables)
  {
  }

  /** What a step records is about a row of its own, when that row is there. */
  lemma PaidStepFinds(w: PaidWriteRuns.World, s: PaidWriteRuns.Step)
    requires PaidWriteRuns.Enabled(w, s)
    requires s.BeginScreen? ==> s.matchId in w.tables.matches
    requires s.BeginExtract? ==> s.job in w.tables.jobs
    ensures var before, after := w.tables.events, PaidWriteRuns.Next(w, s).tables.events;
            after == before || exists e :: !FoundNothing(e) && after == before + [e]
  {
    if s.BeginExtract? {
      ExtractReads(w.tables, s.job, s.extract);
    } else if s.Write? {
      CommitRecords(w.tables, w.locals[s.delivery], s.newId);
    }
  }

  lemma ExtractReads(t: PaidWrites.Tables, job: Id,
                     middle: PaidWrites.Middle<(PaidWrites.Extraction, PaidWrites.Metadata)>)
    requires job in t.jobs
    ensures var after := PaidWrites.ReadExtract(t, job, middle).0.events;
            after == t.events || exists e :: !FoundNothing(e) && after == t.events + [e]
  {
  }

  lemma CommitRecords(t: PaidWrites.Tables, l: PaidWrites.Local, newId: Id)
    requires PaidWrites.LocalOk(t, l) && newId !in t.analyses
    ensures exists e :: !FoundNothing(e) && PaidWrites.Commit(t, l, newId).events == t.events + [e]
  {
    PaidWrites.CommitWritesOrSkips(t, l, newId);
    var action := if PaidWrites.AlreadyWritten(t, PaidWrites.KindOf(l), PaidWrites.Subject(l)) then PaidWrites.Skipped
                  else PaidWrites.Written;
    var e := PaidWrites.Event(PaidWrites.KindOf(l), action, Some(PaidWrites.Subject(l)));
    assert !FoundNothing(e);
  }

  lemma StillFinds(rows: seq<MatchRow>, before: PaidWrites.Tables, after: PaidWrites.Tables, task: Task)
    requires OnlyGrows(before, after) && TaskFinds(rows, before, task)
    ensures TaskFinds(rows, after, task)
  {
  }

  lemma PaidStepKeeps(w: World, step: PaidWriteRuns.Step)
    requires Inv(w) && PaidWriteRuns.Enabled(w.paid, step)
    requires step.BeginScreen? ==> step.matchId in w.paid.tables.matches
    requires step.BeginExtract? ==> step.job in w.paid.tables.jobs
    ensures Inv(w.(paid := PaidWriteRuns.Next(w.paid, step)))
  {
    PaidStepGrows(w.paid, step);
    PaidStepFinds(w.paid, step);
    assert forall e :: e in PaidWriteRuns.Next(w.paid, step).tables.events ==> !FoundNothing(e);
    forall task | task in w.pending
      ensures TaskFinds(w.rows, PaidWriteRuns.Next(w.paid, step).tables, task)
    {
      StillFinds(w.rows, w.paid.tables, PaidWriteRuns.Next(w.paid, step).tables, task);
    }
  }

  /** A committed cycle: old tasks still find their rows, and the buffered ones find theirs. */
  lemma CycleFinds(w: World, input: Input, task: Task)
    requires Inv(w) && Enabled(w, Cycle(input, Handled))
    requires task in w.pending || task in Buffered(w.rows, input)
    ensures TaskFinds(Committed(w, input).rows, Committed(w, input).paid.tables, task)
  {
    var rows := NewRows(w.rows, input);
    if task in w.pending {
      RowsStay(w.rows, rows, w.paid.tables, task);
    } else if task in ScreenTasks(rows, |w.rows|, input.settings.floor) {
      ScreenTaskFinds(w.rows, rows, w.paid.tables, input.settings.floor, task);
    } else {
      ExtractTaskFinds(input, task);
    }
  }

  lemma ScreenTaskFinds(before: seq<MatchRow>, rows: seq<MatchRow>, t: PaidWrites.Tables, floor: Option<real>,
                        task: Task)
    requires task in ScreenTasks(rows, |before|, floor)
    ensures TaskFinds(before + rows, Appended(t, rows, |before|), task)
  {
    ScreenNamesRow(rows, |before|, floor, task);
    NewRowFound(before, rows, t, task);
  }

  lemma RowsStay(before: seq<MatchRow>, rows: seq<MatchRow>, t: PaidWrites.Tables, task: Task)
    requires SameMatches(before, t) && TaskFinds(before, t, task)
    ensures TaskFinds(before + rows, Appended(t, rows, |before|), task)
  {
  }

  lemma NewRowFound(before: seq<MatchRow>, rows: seq<MatchRow>, t: PaidWrites.Tables, task: Task)
    requires task.ScreenTask? && |before| <= task.matchId < |before| + |rows|
    requires rows[task.matchId - |before|].userId == task.userId && rows[task.matchId - |before|].jobId == task.jobId
    ensures TaskFinds(before + rows, Appended(t, rows, |before|), task)
  {
    assert Unscreened(rows, |before|, task.matchId) == Appended(t, rows, |before|).matches[task.matchId];
  }

  lemma BothViewsGrow(before: seq<MatchRow>, rows: seq<MatchRow>, t: PaidWrites.Tables)
    requires SameMatches(before, t)
    ensures SameMatches(before + rows, Appended(t, rows, |before|))
  {
  }

  lemma {:induction false} FilteredMembers(candidates: seq<Candidate>, extracted: bool)
    ensures forall c :: c in Filtered(candidates, extracted) <==> c in candidates && c.extracted == extracted
  {
    if candidates != [] {
      FilteredMembers(candidates[1..], extracted);
      assert candidates == [candidates[0]] + candidates[1..];
    }
  }

  /** An extract task is for the job of a candidate. */
  lemma ExtractTaskFinds(input: Input, task: Task)
    requires task in ExtractTasks(Filtered(input.candidates, false))
    ensures task.ExtractTask? && exists c :: c in input.candidates && c.jobId == task.jobId
  {
    var unextracted := Filtered(input.candidates, false);
    OneExtractPerJob(unextracted);
    FilteredMembers(input.candidates, false);
    var c :| c in unextracted && c.jobId == task.jobId;
    assert c in input.candidates;
  }

  lemma CommitKeeps(w: World, input: Input, pending: seq<Task>)
    requires Inv(w) && Enabled(w, Cycle(input, Handled))
    requires forall t :: t in pending ==> t in w.pending || t in Buffered(w.rows, input)
    ensures Inv(Committed(w, input).(pending := pending))
  {
    BothViewsGrow(w.rows, NewRows(w.rows, input), w.paid.tables);
    forall task | task in pending
      ensures TaskFinds(Committed(w, input).rows, Committed(w, input).paid.tables, task)
    {
      CycleFinds(w, input, task);
    }
  }

  lemma StepKeeps(w: World, s: Step)
    requires Inv(w) && Enabled(w, s)
    ensures Inv(Next(w, s))
  {
    match s
    case Cycle(input, fate) =>
      if fate.CrashBeforeFlush? {
        CommitKeeps(w, input, w.pending);
      } else if fate.Handled? {
        CommitKeeps(w, input, w.pending + Buffered(w.rows, input));
      }
    case Deliver(i, step) =>
      assert w.pending[i] in w.pending;
      PaidStepKeeps(w, step);
    case Drop(i) =>
      forall task | task in w.pending[..i] + w.pending[i + 1..]
        ensures task in w.pending
      {
      }
    case Other(step) => PaidStepKeeps(w, step);
  }

  lemma InitialInv(w: World)
    requires Initial(w)
    ensures Inv(w)
  {
    assert forall e :: e in w.paid.tables.events ==> !FoundNothing(e);
  }

  lemma {:induction false} RunInv(worlds: seq<World>, steps: seq<Step>, i: nat)
    requires IsRun(worlds, steps) && Initial(worlds[0]) && i < |worlds|
    ensures Inv(worlds[i])
  {
    if i == 0 {
      InitialInv(worlds[0]);
    } else {
      RunInv(worlds, steps, i - 1);
      StepKeeps(worlds[i - 1], steps[i - 1]);
    }
  }

  /**
   In every world of every run each waiting screen task names a committed match of its user and job, and
   each waiting extract task a committed job; so no delivery of either has ever ended not_found for its
   own row.
   */
  lemma WaitingTasksFindTheirRows(worlds: seq<World>, steps: seq<Step>, i: nat)
    requires IsRun(worlds, steps) && Initial(worlds[0]) && i < |worlds|
    ensures var w := worlds[i];
            && (forall task :: task in w.pending ==> TaskFinds(w.rows, w.paid.tables, task))
            && (forall e :: e in w.paid.tables.events ==> !FoundNothing(e))
  {
    RunInv(worlds, steps, i);
  }

  /** Reading a waiting screen task's match: never not_found for the match, whatever the call then does. */
  lemma WaitingScreenReadsItsMatch(worlds: seq<World>, steps: seq<Step>, i: nat, k: nat,
                                   middle: PaidWrites.Middle<(string, string)>)
    requires IsRun(worlds, steps) && Initial(worlds[0]) && i < |worlds|
    requires k < |worlds[i].pending| && worlds[i].pending[k].ScreenTask?
    ensures var t, m := worlds[i].paid.tables, worlds[i].pending[k].matchId;
            m in t.matches &&
            PaidWrites.ReadScreen(t, m, middle)
            == if t.matches[m].verdict.Some? then
                 (PaidWrites.Record(t, PaidWrites.Screen, PaidWrites.Skipped, Some(m)), None)
               else if middle.Computes? then (t, Some(PaidWrites.ScreenLocal(m, middle.value.0, middle.value.1)))
               else (PaidWrites.Record(t, PaidWrites.Screen, middle.action, Some(m)), None)
  {
    RunInv(worlds, steps, i);
    assert worlds[i].pending[k] in worlds[i].pending;
  }

  /** A cycle that fails or crashes before its flush dispatches nothing; before its commit it leaves no row either. */
  lemma FailedCycleDispatchesNothing(w: World, input: Input, fate: Fate)
    requires Enabled(w, Cycle(input, fate)) && !fate.Handled?
    ensures Next(w, Cycle(input, fate)).pending == w.pending
    ensures !fate.CrashBeforeFlush? ==> Next(w, Cycle(input, fate)) == w
  {
  }

  // ---------------------------------------------------------------- the handler

  /**
   match_batch_handler: a transaction over the buffered queue, the commit, and only then the flush. A
   failure rolls back and records itself in a transaction of its own.
   */
  method HandleMatchBatch(store: MatchBatch.MatchTables, inner: DeliveryQueue<Task>, userIds: seq<Id>, dirty: bool,
                          input: Input, fate: Fate)
    returns (response: Option<MatchBatch.Result>)
    modifies store, inner
    ensures store.matches == old(store.matches)
                             + if fate.CrashBeforeFlush? || fate.Handled? then NewRows(old(store.matches), input)
                               else []
    ensures inner.dispatched == old(inner.dispatched)
                                + if fate.Handled? then Buffered(old(store.matches), input) else []
    ensures response.Some? <==> fate.Handled?
    ensures fate.CrashBeforeCommit? ==> store.events == old(store.events) && store.rematch == old(store.rematch)
    ensures fate.Fails? ==> store.events == old(store.events) + [Event(RetryableError, None, None)]
                            && store.rematch == old(store.rematch)
  {
    var buffer := new BufferedTaskQueue(inner);
    var session := new MatchBatch.MatchTables.Begin(store);
    var result := MatchBatch.RunCycle(session, buffer, input, userIds, dirty);
    if fate.CrashBeforeCommit? {
      return None;
    }
    if fate.Fails? {
      store.RecordEvent(RetryableError, None, None);
      return None;
    }
    session.CommitTo(store);
    if fate.CrashBeforeFlush? {
      return None;
    }
    buffer.Flush();
    response := Some(result);
  }
}
