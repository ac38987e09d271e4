/**
 One match cycle: extracts for unextracted candidates, a capped and deduplicated set of match rows
 for whatever the reranker returns, a screen task per row above the floor (app/match/service.py).
 */
module MatchCycle {
  import opened Wrappers
  import opened Seqs

  type Id = nat
  type Time = nat

  const DAY: nat := 86400

  /** One row of the candidate query; `overlap` is the Jaccard overlap of the two skill lists. */
  datatype Candidate = Candidate(userId: Id, jobId: Id, extracted: bool, similarity: Option<real>, overlap: real)

  datatype MatchRow = MatchRow(userId: Id, jobId: Id, cycleAt: Time, score: real)

  /** One reranked document; None is an id that is not a UUID. */
  datatype Ranked = Ranked(id: Option<Id>, score: real)

  datatype Action =
    | Started | Completed | Capped | Matched | BelowScreenFloor | EnqueuedScreen
    | DeferredUnextracted | EnqueuedExtract | ClearedRematch | RetryableError

  datatype Event = Event(action: Action, user: Option<Id>, job: Option<Id>)

  /** A match id is the row's position in the table. */
  datatype Task = ExtractTask(jobId: Id) | ScreenTask(userId: Id, jobId: Id, matchId: nat)

  datatype Settings = Settings(dailyCap: int, topN: int, floor: Option<real>)

  /** A reranker is any function of the pool it is given and the number asked for. */
  type Reranker = (seq<Candidate>, int) -> seq<Ranked>

  function DayStart(t: Time): Time {
    t - t % DAY
  }

  function Min(a: int, b: int): int { if a <= b then a else b }

  /** s[:k] with Python's meaning for a negative k. */
  function Prefix<T>(s: seq<T>, k: int): seq<T> {
    if k >= 0 then s[..Min(k, |s|)] else if -k <= |s| then s[..|s| + k] else []
  }

  // ---------------------------------------------------------------- extract tasks

  function JobIds(candidates: seq<Candidate>): seq<Id> {
    seq(|candidates|, i requires 0 <= i < |candidates| => candidates[i].jobId)
  }

  function ExtractTasks(unextracted: seq<Candidate>): seq<Task> {
    var jobs := FirstOccurrences(JobIds(unextracted));
    seq(|jobs|, i requires 0 <= i < |jobs| => ExtractTask(jobs[i]))
  }

  function ExtractEvents(unextracted: seq<Candidate>): seq<Event> {
    if unextracted == [] then []
    else
      var front, last := unextracted[..|unextracted| - 1], unextracted[|unextracted| - 1];
      ExtractEvents(front) + [Event(DeferredUnextracted, Some(last.userId), Some(last.jobId))]
      + (if last.jobId in JobIds(front) then [] else [Event(EnqueuedExtract, None, Some(last.jobId))])
  }

  // ---------------------------------------------------------------- one user

  function CombinedScore(c: Candidate): real {
    0.7 * (if c.similarity.Some? then c.similarity.value else 0.0) + 0.3 * c.overlap
  }

  predicate RanksBefore(a: Candidate, b: Candidate) {
    CombinedScore(a) >= CombinedScore(b)
  }

  function OfUser(candidates: seq<Candidate>, user: Id): seq<Candidate> {
    if candidates == [] then []
    else
      var front, last := candidates[..|candidates| - 1], candidates[|candidates| - 1];
      OfUser(front, user) + (if last.userId == user then [last] else [])
  }

  /** matches of the user since the day of `now` began. */
  function CountSince(rows: seq<MatchRow>, user: Id, dayStart: Time): nat {
    if rows == [] then 0
    else CountSince(rows[..|rows| - 1], user, dayStart)
         + (if rows[|rows| - 1].userId == user && rows[|rows| - 1].cycleAt >= dayStart then 1 else 0)
  }

  function Remaining(rows: seq<MatchRow>, user: Id, cycleAt: Time, settings: Settings): nat {
    var left := settings.dailyCap - CountSince(rows, user, DayStart(cycleAt));
    if left > 0 then left else 0
  }

  function Pool(candidates: seq<Candidate>, remaining: nat): seq<Candidate> {
    Prefix(Sort(RanksBefore, candidates), remaining)
  }

  predicate PairTaken(rows: seq<MatchRow>, user: Id, job: Id, cycleAt: Time) {
    exists i :: 0 <= i < |rows| && rows[i].userId == user && rows[i].jobId == job && rows[i].cycleAt == cycleAt
  }

  predicate HasJob(rows: seq<MatchRow>, job: Id) {
    exists i :: 0 <= i < |rows| && rows[i].jobId == job
  }

  /** The rows one user's reranked documents give: in the pool, not yet in this cycle, first mention only. */
  function Accepted(before: seq<MatchRow>, user: Id, cycleAt: Time, pool: seq<Candidate>,
                    ranked: seq<Ranked>): seq<MatchRow> {
    if ranked == [] then []
    else
      var rest := Accepted(before, user, cycleAt, pool, ranked[..|ranked| - 1]);
      var doc := ranked[|ranked| - 1];
      if doc.id.None? || doc.id.value !in JobIds(pool) || PairTaken(before, user, doc.id.value, cycleAt)
         || HasJob(rest, doc.id.value)
      then rest
      else rest + [MatchRow(user, doc.id.value, cycleAt, doc.score)]
  }

  function UserRows(before: seq<MatchRow>, user: Id, cycleAt: Time, candidates: seq<Candidate>, settings: Settings,
                    rerank: Reranker): seq<MatchRow> {
    var remaining := Remaining(before, user, cycleAt, settings);
    var pool := Pool(candidates, remaining);
    if remaining == 0 || pool == [] then []
    else
      var take := Min(settings.topN, remaining);
      Accepted(before, user, cycleAt, pool, Prefix(rerank(pool, take), take))
  }

  // ---------------------------------------------------------------- the cycle

  function Filtered(candidates: seq<Candidate>, extracted: bool): seq<Candidate> {
    if candidates == [] then []
    else (if candidates[0].extracted == extracted then [candidates[0]] else []) + Filtered(candidates[1..], extracted)
  }

  function UserIds(candidates: seq<Candidate>): seq<Id> {
    seq(|candidates|, i requires 0 <= i < |candidates| => candidates[i].userId)
  }

  /** The rows of a cycle over `users`, each judged against the rows from before the cycle. */
  function CycleRows(before: seq<MatchRow>, users: seq<Id>, cycleAt: Time, extracted: seq<Candidate>,
                     settings: Settings, rerank: Reranker): seq<MatchRow> {
    if users == [] then []
    else
      var last := users[|users| - 1];
      CycleRows(before, users[..|users| - 1], cycleAt, extracted, settings, rerank)
      + UserRows(before, last, cycleAt, OfUser(extracted, last), settings, rerank)
  }

  /** What one cycle works on: the rows of the candidate query, the settings and a reranker. */
  datatype Input = Input(candidates: seq<Candidate>, cycleAt: Time, settings: Settings, rerank: Reranker)

  /** The users of a cycle, in the order in which the candidates first name them. */
  function CycleUsers(input: Input): seq<Id> {
    FirstOccurrences(UserIds(Filtered(input.candidates, true)))
  }

  /** The rows a cycle adds. */
  function NewRows(before: seq<MatchRow>, input: Input): seq<MatchRow> {
    CycleRows(before, CycleUsers(input), input.cycleAt, Filtered(input.candidates, true), input.settings, input.rerank)
  }

  /** The tasks a cycle buffers. */
  function Buffered(before: seq<MatchRow>, input: Input): seq<Task> {
    ExtractTasks(Filtered(input.candidates, false))
    + ScreenTasks(NewRows(before, input), |before|, input.settings.floor)
  }

  predicate BelowFloor(row: MatchRow, floor: Option<real>) {
    floor.Some? && row.score < floor.value
  }

  /** A screen task for every row that is not below the floor, naming the row by its position. */
  function ScreenTasks(rows: seq<MatchRow>, first: nat, floor: Option<real>): seq<Task> {
    if rows == [] then []
    else
      var n := |rows| - 1;
      ScreenTasks(rows[..n], first, floor)
      + (if BelowFloor(rows[n], floor) then [] else [ScreenTask(rows[n].userId, rows[n].jobId, first + n)])
  }

  function CountBelow(rows: seq<MatchRow>, floor: Option<real>): nat {
    if rows == [] then 0
    else CountBelow(rows[..|rows| - 1], floor) + (if BelowFloor(rows[|rows| - 1], floor) then 1 else 0)
  }

  function RowEvents(rows: seq<MatchRow>, floor: Option<real>): seq<Event> {
    if rows == [] then []
    else
      var last := rows[|rows| - 1];
      RowEvents(rows[..|rows| - 1], floor)
      + [Event(Matched, Some(last.userId), Some(last.jobId)),
         Event(if BelowFloor(last, floor) then BelowScreenFloor else EnqueuedScreen, Some(last.userId),
               Some(last.jobId))]
  }

  function UserEvents(before: seq<MatchRow>, user: Id, cycleAt: Time, candidates: seq<Candidate>, settings: Settings,
                      rerank: Reranker): seq<Event> {
    if Remaining(before, user, cycleAt, settings) == 0 then [Event(Capped, Some(user), None)]
    else RowEvents(UserRows(before, user, cycleAt, candidates, settings, rerank), settings.floor)
  }

  function CycleEvents(before: seq<MatchRow>, users: seq<Id>, cycleAt: Time, extracted: seq<Candidate>,
                       settings: Settings, rerank: Reranker): seq<Event> {
    if users == [] then []
    else
      var last := users[|users| - 1];
      CycleEvents(before, users[..|users| - 1], cycleAt, extracted, settings, rerank)
      + UserEvents(before, last, cycleAt, OfUser(extracted, last), settings, rerank)
  }

  // ---------------------------------------------------------------- what a cycle's rows are

  predicate DistinctJobs(rows: seq<MatchRow>) {
    forall i, j :: 0 <= i < j < |rows| ==> rows[i].jobId != rows[j].jobId
  }

  lemma {:induction false} AcceptedShape(before: seq<MatchRow>, user: Id, cycleAt: Time, pool: seq<Candidate>,
                                         ranked: seq<Ranked>)
    ensures forall r :: r in Accepted(before, user, cycleAt, pool, ranked) ==>
              && r.userId == user && r.cycleAt == cycleAt && r.jobId in JobIds(pool)
              && !PairTaken(before, user, r.jobId, cycleAt)
    ensures var rows := Accepted(before, user, cycleAt, pool, ranked);
            DistinctJobs(rows)
  {
    if ranked != [] {
      AcceptedShape(before, user, cycleAt, pool, ranked[..|ranked| - 1]);
      var rest := Accepted(before, user, cycleAt, pool, ranked[..|ranked| - 1]);
      var all := Accepted(before, user, cycleAt, pool, ranked);
      forall i, j | 0 <= i < j < |all|
        ensures all[i].jobId != all[j].jobId
      {
        assert all[i] == rest[i];
        if j < |rest| {
          assert all[j] == rest[j];
        }
      }
    }
  }

  /** Any document the reranker returns that is in the pool and new to the cycle gets its row. */
  lemma {:induction false} AcceptedComplete(before: seq<MatchRow>, user: Id, cycleAt: Time, pool: seq<Candidate>,
                                            ranked: seq<Ranked>, k: nat)
    requires k < |ranked| && ranked[k].id.Some? && ranked[k].id.value in JobIds(pool)
    requires !PairTaken(before, user, ranked[k].id.value, cycleAt)
    requires forall i :: 0 <= i < k ==> ranked[i].id != ranked[k].id
    ensures MatchRow(user, ranked[k].id.value, cycleAt, ranked[k].score)
            in Accepted(before, user, cycleAt, pool, ranked)
  {
    var n := |ranked| - 1;
    if k < n {
      AcceptedComplete(before, user, cycleAt, pool, ranked[..n], k);
    } else {
      var rest := Accepted(before, user, cycleAt, pool, ranked[..n]);
      if i :| 0 <= i < |rest| && rest[i].jobId == ranked[k].id.value {
        var earlier := AcceptedFromRanked(before, user, cycleAt, pool, ranked[..n], rest[i]);
        assert false;
      }
    }
  }

  /** Every row comes from a returned document, with that document's job and score. */
  lemma {:induction false} AcceptedFromRanked(before: seq<MatchRow>, user: Id, cycleAt: Time, pool: seq<Candidate>,
                                              ranked: seq<Ranked>, r: MatchRow)
    returns (k: nat)
    requires r in Accepted(before, user, cycleAt, pool, ranked)
    ensures k < |ranked| && ranked[k] == Ranked(Some(r.jobId), r.score)
  {
    k := |ranked| - 1;
    if r in Accepted(before, user, cycleAt, pool, ranked[..k]) {
      k := AcceptedFromRanked(before, user, cycleAt, pool, ranked[..k], r);
    }
  }

  function RowJobs(rows: seq<MatchRow>): seq<Id> {
    seq(|rows|, i requires 0 <= i < |rows| => rows[i].jobId)
  }

  /** However long the reranker's answer and whatever top_n says, the pool bounds the rows. */
  lemma UserRowsBounded(before: seq<MatchRow>, user: Id, cycleAt: Time, candidates: seq<Candidate>, settings: Settings,
                        rerank: Reranker)
    ensures |UserRows(before, user, cycleAt, candidates, settings, rerank)|
            <= Remaining(before, user, cycleAt, settings)
    ensures forall r :: r in UserRows(before, user, cycleAt, candidates, settings, rerank) ==>
              r.userId == user && r.cycleAt == cycleAt && !PairTaken(before, user, r.jobId, cycleAt)
    ensures var rows := UserRows(before, user, cycleAt, candidates, settings, rerank);
            DistinctJobs(rows)
  {
    var remaining := Remaining(before, user, cycleAt, settings);
    var pool := Pool(candidates, remaining);
    if remaining > 0 && pool != [] {
      var take := Min(settings.topN, remaining);
      var ranked := Prefix(rerank(pool, take), take);
      AcceptedShape(before, user, cycleAt, pool, ranked);
      var rows := Accepted(before, user, cycleAt, pool, ranked);
      var jobs := RowJobs(rows);
      var poolJobs := set c | c in pool :: c.jobId;
      forall x | x in jobs
        ensures x in poolJobs
      {
        var i :| 0 <= i < |jobs| && jobs[i] == x;
        assert rows[i] in rows;
        var k :| 0 <= k < |JobIds(pool)| && JobIds(pool)[k] == x;
        assert pool[k] in pool;
      }
      assert NoDuplicates(jobs);
      DistinctCount(jobs, poolJobs);
      PoolJobsCount(pool);
    }
  }

  lemma {:induction false} PoolJobsCount(pool: seq<Candidate>)
    ensures |set c | c in pool :: c.jobId| <= |pool|
  {
    if pool != [] {
      var front, last := pool[..|pool| - 1], pool[|pool| - 1];
      PoolJobsCount(front);
      assert pool == front + [last];
      assert (set c | c in pool :: c.jobId) == (set c | c in front :: c.jobId) + {last.jobId};
    }
  }

  lemma {:induction false} CountAppend(a: seq<MatchRow>, b: seq<MatchRow>, user: Id, dayStart: Time)
    ensures CountSince(a + b, user, dayStart) == CountSince(a, user, dayStart) + CountSince(b, user, dayStart)
  {
    if b == [] {
      assert a + b == a;
    } else {
      CountAppend(a, b[..|b| - 1], user, dayStart);
      assert (a + b)[..|a + b| - 1] == a + b[..|b| - 1];
    }
  }

  lemma {:induction false} CountAtMostLength(rows: seq<MatchRow>, user: Id, dayStart: Time)
    ensures CountSince(rows, user, dayStart) <= |rows|
    ensures (forall r :: r in rows ==> r.userId != user) ==> CountSince(rows, user, dayStart) == 0
  {
    if rows != [] {
      CountAtMostLength(rows[..|rows| - 1], user, dayStart);
      assert rows[|rows| - 1] in rows;
      assert forall r :: r in rows[..|rows| - 1] ==> r in rows;
    }
  }

  /** One more user's rows count for that user alone. */
  lemma CountOneMoreUser(front: seq<Id>, last: Id, rows: seq<MatchRow>, mine: seq<MatchRow>, user: Id, day: Time,
                         left: nat)
    requires last !in front && forall r :: r in mine ==> r.userId == last
    requires CountSince(rows, user, day) <= if user in front then left else 0
    requires user == last ==> |mine| <= left
    ensures CountSince(rows + mine, user, day) <= if user in front || user == last then left else 0
  {
    CountAppend(rows, mine, user, day);
    CountAtMostLength(mine, user, day);
  }

  lemma UserRowsAreOwn(before: seq<MatchRow>, user: Id, cycleAt: Time, candidates: seq<Candidate>, settings: Settings,
                       rerank: Reranker)
    ensures forall r :: r in UserRows(before, user, cycleAt, candidates, settings, rerank) ==> r.userId == user
  {
    UserRowsBounded(before, user, cycleAt, candidates, settings, rerank);
  }

  /** Whatever the day, a user's rows of a cycle are those of that user's own turn. */
  lemma {:induction false} CountOwnTurn(before: seq<MatchRow>, users: seq<Id>, cycleAt: Time,
                                        extracted: seq<Candidate>, settings: Settings, rerank: Reranker, user: Id,
                                        day: Time)
    requires NoDuplicates(users)
    ensures CountSince(CycleRows(before, users, cycleAt, extracted, settings, rerank), user, day)
            <= if user in users then |UserRows(before, user, cycleAt, OfUser(extracted, user), settings, rerank)| else 0
  {
    if users != [] {
      var front, last := users[..|users| - 1], users[|users| - 1];
      CountOwnTurn(before, front, cycleAt, extracted, settings, rerank, user, day);
      UserRowsAreOwn(before, last, cycleAt, OfUser(extracted, last), settings, rerank);
      assert users == front + [last];
      CountOneMoreUser(front, last, CycleRows(before, front, cycleAt, extracted, settings, rerank),
                       UserRows(before, last, cycleAt, OfUser(extracted, last), settings, rerank), user, day,
                       |UserRows(before, user, cycleAt, OfUser(extracted, user), settings, rerank)|);
    }
  }

  /** The rows a cycle gives one of its (distinct) users are that user's own, and within what the day has left. */
  lemma CycleRowsOfUser(before: seq<MatchRow>, users: seq<Id>, cycleAt: Time, extracted: seq<Candidate>,
                        settings: Settings, rerank: Reranker, user: Id)
    requires NoDuplicates(users)
    ensures CountSince(CycleRows(before, users, cycleAt, extracted, settings, rerank), user, DayStart(cycleAt))
            <= if user in users then Remaining(before, user, cycleAt, settings) else 0
  {
    CountOwnTurn(before, users, cycleAt, extracted, settings, rerank, user, DayStart(cycleAt));
    UserRowsBounded(before, user, cycleAt, OfUser(extracted, user), settings, rerank);
  }

  predicate OncePerCycle(rows: seq<MatchRow>) {
    forall i, j :: 0 <= i < j < |rows| ==>
      !(rows[i].userId == rows[j].userId && rows[i].jobId == rows[j].jobId && rows[i].cycleAt == rows[j].cycleAt)
  }

  lemma {:induction false} CycleRowsAreNew(before: seq<MatchRow>, users: seq<Id>, cycleAt: Time,
                                           extracted: seq<Candidate>, settings: Settings, rerank: Reranker)
    requires NoDuplicates(users)
    ensures forall r :: r in CycleRows(before, users, cycleAt, extracted, settings, rerank) ==>
              r.userId in users && r.cycleAt == cycleAt && !PairTaken(before, r.userId, r.jobId, cycleAt)
    ensures OncePerCycle(CycleRows(before, users, cycleAt, extracted, settings, rerank))
  {
    if users != [] {
      var front, last := users[..|users| - 1], users[|users| - 1];
      CycleRowsAreNew(before, front, cycleAt, extracted, settings, rerank);
      UserRowsBounded(before, last, cycleAt, OfUser(extracted, last), settings, rerank);
      var a := CycleRows(before, front, cycleAt, extracted, settings, rerank);
      var b := UserRows(before, last, cycleAt, OfUser(extracted, last), settings, rerank);
      assert forall i :: 0 <= i < |a| ==> a[i] in a;
      assert forall i :: 0 <= i < |b| ==> b[i] in b;
      assert last !in front;
    }
  }

  /**
   The cap and the dedup of one cycle, for any reranker: every user's rows since the day began stay
   within the cap (or where they were, if already above it), and no (user, job, cycle) is written twice,
   also when the cycle is redelivered with the same cycle_at.
   */
  lemma CycleKeepsCapAndPairs(before: seq<MatchRow>, users: seq<Id>, cycleAt: Time, extracted: seq<Candidate>,
                              settings: Settings, rerank: Reranker, user: Id)
    requires NoDuplicates(users)
    ensures var after := before + CycleRows(before, users, cycleAt, extracted, settings, rerank);
            && (CountSince(after, user, DayStart(cycleAt)) <= settings.dailyCap
                || CountSince(after, user, DayStart(cycleAt)) == CountSince(before, user, DayStart(cycleAt)))
            && (OncePerCycle(before) ==> OncePerCycle(after))
  {
    var rows := CycleRows(before, users, cycleAt, extracted, settings, rerank);
    CycleRowsOfUser(before, users, cycleAt, extracted, settings, rerank, user);
    CountAppend(before, rows, user, DayStart(cycleAt));
    CycleRowsAreNew(before, users, cycleAt, extracted, settings, rerank);
    assert forall i :: 0 <= i < |rows| ==> rows[i] in rows;
  }

  lemma {:induction false} ScreensAndBelow(rows: seq<MatchRow>, first: nat, floor: Option<real>)
    ensures |rows| == |ScreenTasks(rows, first, floor)| + CountBelow(rows, floor)
  {
    if rows != [] {
      ScreensAndBelow(rows[..|rows| - 1], first, floor);
    }
  }

  /** A screen task names a row of the cycle that is not below the floor. */
  lemma {:induction false} ScreenNamesRow(rows: seq<MatchRow>, first: nat, floor: Option<real>, t: Task)
    requires t in ScreenTasks(rows, first, floor)
    ensures t.ScreenTask? && first <= t.matchId < first + |rows|
    ensures var row := rows[t.matchId - first];
            row.userId == t.userId && row.jobId == t.jobId && !BelowFloor(row, floor)
  {
    var n := |rows| - 1;
    if t in ScreenTasks(rows[..n], first, floor) {
      ScreenNamesRow(rows[..n], first, floor, t);
    }
  }

  /** Every row that is not below the floor has its screen task. */
  lemma {:induction false} RowHasScreen(rows: seq<MatchRow>, first: nat, floor: Option<real>, k: nat)
    requires k < |rows| && !BelowFloor(rows[k], floor)
    ensures ScreenTask(rows[k].userId, rows[k].jobId, first + k) in ScreenTasks(rows, first, floor)
  {
    if k < |rows| - 1 {
      RowHasScreen(rows[..|rows| - 1], first, floor, k);
    }
  }

  /** Rows written are screened or below the floor, never both, never neither. */
  lemma RowsAreScreenedOrBelow(rows: seq<MatchRow>, first: nat, floor: Option<real>)
    ensures |rows| == |ScreenTasks(rows, first, floor)| + CountBelow(rows, floor)
    ensures forall k :: 0 <= k < |rows| ==>
              (ScreenTask(rows[k].userId, rows[k].jobId, first + k) in ScreenTasks(rows, first, floor)
               <==> !BelowFloor(rows[k], floor))
  {
    ScreensAndBelow(rows, first, floor);
    forall k | 0 <= k < |rows|
      ensures ScreenTask(rows[k].userId, rows[k].jobId, first + k) in ScreenTasks(rows, first, floor)
              <==> !BelowFloor(rows[k], floor)
    {
      var t := ScreenTask(rows[k].userId, rows[k].jobId, first + k);
      if t in ScreenTasks(rows, first, floor) {
        ScreenNamesRow(rows, first, floor, t);
      } else if !BelowFloor(rows[k], floor) {
        RowHasScreen(rows, first, floor, k);
      }
    }
  }

  lemma ExtractSnoc(front: seq<Candidate>, cand: Candidate)
    ensures var all, jobs := front + [cand], FirstOccurrences(JobIds(front));
            && FirstOccurrences(JobIds(all)) == (if cand.jobId in jobs then jobs else jobs + [cand.jobId])
            && ExtractTasks(all) == ExtractTasks(front) + (if cand.jobId in jobs then [] else [ExtractTask(cand.jobId)])
            && ExtractEvents(all)
               == ExtractEvents(front) + [Event(DeferredUnextracted, Some(cand.userId), Some(cand.jobId))]
                                     + (if cand.jobId in jobs then []
                                        else [Event(EnqueuedExtract, None, Some(cand.jobId))])
  {
    var all := front + [cand];
    assert all[..|front|] == front;
    assert JobIds(all) == JobIds(front) + [cand.jobId];
    assert JobIds(all)[..|front|] == JobIds(front);
    FirstOccurrencesAreDistinct(JobIds(front));
  }

  /** One extract task per distinct unextracted job, and none for any other. */
  lemma OneExtractPerJob(unextracted: seq<Candidate>)
    ensures NoDuplicates(ExtractTasks(unextracted))
    ensures forall j :: ExtractTask(j) in ExtractTasks(unextracted) <==> exists c :: c in unextracted && c.jobId == j
  {
    var ids := JobIds(unextracted);
    var jobs := FirstOccurrences(ids);
    FirstOccurrencesAreDistinct(ids);
    forall j
      ensures ExtractTask(j) in ExtractTasks(unextracted) <==> exists c :: c in unextracted && c.jobId == j
    {
      assert ExtractTask(j) in ExtractTasks(unextracted) <==> j in jobs by {
        if j in jobs {
          var i :| 0 <= i < |jobs| && jobs[i] == j;
          assert ExtractTasks(unextracted)[i] == ExtractTask(j);
        }
      }
      if j in ids {
        var i :| 0 <= i < |ids| && ids[i] == j;
        assert unextracted[i] in unextracted && unextracted[i].jobId == j;
      }
      if c :| c in unextracted && c.jobId == j {
        var i :| 0 <= i < |unextracted| && unextracted[i] == c;
        assert ids[i] == j;
      }
    }
  }

  // ---------------------------------------------------------------- many cycles

  /** Redelivering a cycle is running it again with the same cycle_at. */
  function RunCycles(rows: seq<MatchRow>, cycles: seq<Input>): seq<MatchRow>
    decreases |cycles|
  {
    if cycles == [] then rows else RunCycles(rows + NewRows(rows, cycles[0]), cycles[1..])
  }

  function MaxInt(a: int, b: int): int { if a >= b then a else b }

  /**
   Over any number of cycles in one day, redeliveries included and with any rerankers, no user passes
   the daily cap (or the count it started the run with), and each (user, job, cycle) has one row.
   */
  lemma {:induction false} DayNeverExceedsCap(rows: seq<MatchRow>, cycles: seq<Input>, cap: int, day: Time, user: Id)
    requires forall i :: 0 <= i < |cycles| ==> DayStart(cycles[i].cycleAt) == day && cycles[i].settings.dailyCap == cap
    ensures CountSince(RunCycles(rows, cycles), user, day) <= MaxInt(cap, CountSince(rows, user, day))
    ensures OncePerCycle(rows) ==> OncePerCycle(RunCycles(rows, cycles))
    decreases |cycles|
  {
    if cycles != [] {
      var c := cycles[0];
      FirstOccurrencesAreDistinct(UserIds(Filtered(c.candidates, true)));
      CycleKeepsCapAndPairs(rows, CycleUsers(c), c.cycleAt, Filtered(c.candidates, true), c.settings, c.rerank, user);
      DayNeverExceedsCap(rows + NewRows(rows, c), cycles[1..], cap, day, user);
    }
  }
}

/** match_batch as the source writes it: loops that update counters, sets, dicts and tables. */
module MatchBatch {
  import opened Wrappers
  import opened Seqs
  import opened TaskQueue
  import opened MatchCycle

  class MatchTables {
    var matches: seq<MatchRow>
    var rematch: set<Id>
    var events: seq<Event>

    /** A transaction starts from the committed tables. */
    constructor Begin(store: MatchTables)
      ensures matches == store.matches && rematch == store.rematch && events == store.events
    {
      matches, rematch, events := store.matches, store.rematch, store.events;
    }

    method CommitTo(store: MatchTables)
      requires store != this
      modifies store
      ensures store.matches == matches && store.rematch == rematch && store.events == events
    {
      store.matches, store.rematch, store.events := matches, rematch, events;
    }

    method RecordEvent(action: Action, user: Option<Id>, job: Option<Id>)
      modifies this`events
      ensures events == old(events) + [Event(action, user, job)]
    {
      events := events + [Event(action, user, job)];
    }
  }

  datatype Result = Result(extractsEnqueued: nat, matchesWritten: nat, screensEnqueued: nat, deferred: nat)

  /** The queue, the events and the jobs seen when these candidates have been deferred. */
  ghost function Deferred(tasks: seq<Task>, events: seq<Event>, front: seq<Candidate>)
    : (seq<Task>, seq<Event>, seq<Id>) -> bool
  {
    (q: seq<Task>, e: seq<Event>, seen: seq<Id>) =>
      && q == tasks + ExtractTasks(front) && e == events + ExtractEvents(front)
      && seen == FirstOccurrences(JobIds(front))
  }

  lemma NextDeferred(tasks: seq<Task>, events: seq<Event>, front: seq<Candidate>, cand: Candidate, q: seq<Task>,
                     e: seq<Event>, seen: seq<Id>)
    requires Deferred(tasks, events, front)(q, e, seen)
    ensures var noted := e + [Event(DeferredUnextracted, Some(cand.userId), Some(cand.jobId))];
            if cand.jobId in seen then Deferred(tasks, events, front + [cand])(q, noted, seen)
            else Deferred(tasks, events, front + [cand])
                   (q + [ExtractTask(cand.jobId)], noted + [Event(EnqueuedExtract, None, Some(cand.jobId))],
                    seen + [cand.jobId])
  {
    ExtractSnoc(front, cand);
    var note := [Event(DeferredUnextracted, Some(cand.userId), Some(cand.jobId))];
    AppendAssociates(tasks, ExtractTasks(front), [ExtractTask(cand.jobId)]);
    AppendAssociates(events, ExtractEvents(front), note);
    AppendAssociates(events, ExtractEvents(front) + note, [Event(EnqueuedExtract, None, Some(cand.jobId))]);
  }

  method EnqueueExtracts(store: MatchTables, queue: BufferedTaskQueue<Task>, unextracted: seq<Candidate>)
    returns (enqueued: nat)
    modifies store`events, queue
    ensures queue.pending == old(queue.pending) + ExtractTasks(unextracted)
    ensures store.events == old(store.events) + ExtractEvents(unextracted)
    ensures enqueued == |ExtractTasks(unextracted)|
  {
    var seen: seq<Id> := [];
    enqueued := 0;
    for i := 0 to |unextracted|
      invariant Deferred(old(queue.pending), old(store.events), unextracted[..i])(queue.pending, store.events, seen)
      invariant enqueued == |seen|
    {
      var cand := unextracted[i];
      assert unextracted[..i + 1] == unextracted[..i] + [cand];
      NextDeferred(old(queue.pending), old(store.events), unextracted[..i], cand, queue.pending, store.events, seen);
      store.RecordEvent(DeferredUnextracted, Some(cand.userId), Some(cand.jobId));
      if cand.jobId !in seen {
        seen := seen + [cand.jobId];
        queue.Enqueue(ExtractTask(cand.jobId));
        store.RecordEvent(EnqueuedExtract, None, Some(cand.jobId));
        enqueued := enqueued + 1;
      }
    }
    assert unextracted[..|unextracted|] == unextracted;
  }

  /** The dict holds for each of its users what `of` says, which is nothing for anybody else. */
  ghost predicate Holds(users: seq<Id>, byUser: map<Id, seq<Candidate>>, of: Id -> seq<Candidate>) {
    && (forall u :: u in users <==> u in byUser)
    && (forall u :: of(u) == if u in byUser then byUser[u] else [])
  }

  /** One more candidate joins its user's. */
  ghost predicate Joins(before: Id -> seq<Candidate>, cand: Candidate, after: Id -> seq<Candidate>) {
    forall u :: after(u) == before(u) + (if u == cand.userId then [cand] else [])
  }

  ghost function CandidatesOf(front: seq<Candidate>): Id -> seq<Candidate> {
    (u: Id) => OfUser(front, u)
  }

  lemma CandidateJoins(front: seq<Candidate>, cand: Candidate)
    ensures Joins(CandidatesOf(front), cand, CandidatesOf(front + [cand]))
  {
    assert (front + [cand])[..|front|] == front;
  }

  lemma NextHeld(users: seq<Id>, byUser: map<Id, seq<Candidate>>, before: Id -> seq<Candidate>, cand: Candidate,
                 after: Id -> seq<Candidate>)
    requires Holds(users, byUser, before) && Joins(before, cand, after)
    ensures var u := cand.userId;
            if u in byUser then Holds(users, byUser[u := byUser[u] + [cand]], after)
            else Holds(users + [u], byUser[u := []][u := [] + [cand]], after)
  {
  }

  lemma UsersSnoc(front: seq<Candidate>, cand: Candidate)
    ensures FirstOccurrences(UserIds(front + [cand]))
            == FirstOccurrences(UserIds(front))
               + (if cand.userId in FirstOccurrences(UserIds(front)) then [] else [cand.userId])
  {
    assert UserIds(front + [cand]) == UserIds(front) + [cand.userId];
    assert (UserIds(front) + [cand.userId])[..|front|] == UserIds(front);
  }

  /** The per-user grouping dict: its keys in insertion order, and each user's candidates in row order. */
  method GroupByUser(extracted: seq<Candidate>) returns (users: seq<Id>, byUser: map<Id, seq<Candidate>>)
    ensures users == FirstOccurrences(UserIds(extracted))
    ensures forall u :: u in users <==> u in byUser
    ensures forall u :: u in byUser ==> byUser[u] == OfUser(extracted, u)
  {
    users, byUser := [], map[];
    for i := 0 to |extracted|
      invariant users == FirstOccurrences(UserIds(extracted[..i]))
      invariant Holds(users, byUser, CandidatesOf(extracted[..i]))
    {
      var cand := extracted[i];
      assert extracted[..i + 1] == extracted[..i] + [cand];
      UsersSnoc(extracted[..i], cand);
      CandidateJoins(extracted[..i], cand);
      NextHeld(users, byUser, CandidatesOf(extracted[..i]), cand, CandidatesOf(extracted[..i + 1]));
      if cand.userId !in byUser {
        users := users + [cand.userId];
        byUser := byUser[cand.userId := []];
      }
      byUser := byUser[cand.userId := byUser[cand.userId] + [cand]];
    }
    assert extracted[..|extracted|] == extracted;
  }

  method CountMatchesSince(matches: seq<MatchRow>, user: Id, dayStart: Time) returns (count: nat)
    ensures count == CountSince(matches, user, dayStart)
  {
    count := 0;
    for i := 0 to |matches|
      invariant count == CountSince(matches[..i], user, dayStart)
    {
      assert matches[..i + 1][..i] == matches[..i];
      if matches[i].userId == user && matches[i].cycleAt >= dayStart {
        count := count + 1;
      }
    }
    assert matches[..|matches|] == matches;
  }

  lemma OneRow(row: MatchRow, first: nat, floor: Option<real>)
    ensures ScreenTasks([row], first, floor)
            == if BelowFloor(row, floor) then [] else [ScreenTask(row.userId, row.jobId, first)]
    ensures RowEvents([row], floor)
            == [Event(Matched, Some(row.userId), Some(row.jobId)),
                Event(if BelowFloor(row, floor) then BelowScreenFloor else EnqueuedScreen, Some(row.userId),
                      Some(row.jobId))]
  {
    assert [row][..0] == [];
    assert ScreenTasks([], first, floor) == [] && RowEvents([], floor) == [];
  }

  /** One more row adds its own task and events. */
  lemma RowsGrow(rows: seq<MatchRow>, row: MatchRow, first: nat, floor: Option<real>)
    ensures ScreenTasks(rows + [row], first, floor)
            == ScreenTasks(rows, first, floor) + ScreenTasks([row], first + |rows|, floor)
    ensures RowEvents(rows + [row], floor) == RowEvents(rows, floor) + RowEvents([row], floor)
  {
    assert (rows + [row])[..|rows|] == rows;
    OneRow(row, first + |rows|, floor);
  }

  /** One row: its match, and its screen task unless it scores below the floor. */
  method WriteRow(store: MatchTables, queue: BufferedTaskQueue<Task>, row: MatchRow, floor: Option<real>)
    returns (screened: bool)
    modifies store`matches, store`events, queue
    ensures screened <==> !BelowFloor(row, floor)
    ensures store.matches == old(store.matches) + [row]
    ensures queue.pending == old(queue.pending) + ScreenTasks([row], |old(store.matches)|, floor)
    ensures store.events == old(store.events) + RowEvents([row], floor)
  {
    var user, job := row.userId, row.jobId;
    OneRow(row, |store.matches|, floor);
    store.matches := store.matches + [row];
    store.RecordEvent(Matched, Some(user), Some(job));
    screened := !(floor.Some? && row.score < floor.value);
    if screened {
      queue.Enqueue(ScreenTask(user, job, |store.matches| - 1));
      store.RecordEvent(EnqueuedScreen, Some(user), Some(job));
    } else {
      store.RecordEvent(BelowScreenFloor, Some(user), Some(job));
    }
  }

  /** The queue, the events and the count of screens when these rows have been written after `first` ones. */
  ghost function Written(first: seq<MatchRow>, tasks: seq<Task>, events: seq<Event>, floor: Option<real>,
                         rows: seq<MatchRow>)
    : (seq<Task>, seq<Event>, nat) -> bool
  {
    (q: seq<Task>, e: seq<Event>, screens: nat) =>
      && q == tasks + ScreenTasks(rows, |first|, floor) && e == events + RowEvents(rows, floor)
      && screens == |ScreenTasks(rows, |first|, floor)|
  }

  lemma NextWritten(first: seq<MatchRow>, tasks: seq<Task>, events: seq<Event>, floor: Option<real>,
                    rows: seq<MatchRow>, row: MatchRow, q: seq<Task>, e: seq<Event>, screens: nat)
    requires Written(first, tasks, events, floor, rows)(q, e, screens)
    ensures Written(first, tasks, events, floor, rows + [row])
              (q + ScreenTasks([row], |first + rows|, floor), e + RowEvents([row], floor),
               if BelowFloor(row, floor) then screens else screens + 1)
  {
    var n := |first + rows|;
    RowsGrow(rows, row, |first|, floor);
    OneRow(row, n, floor);
    Joined(q, tasks, ScreenTasks(rows, |first|, floor), ScreenTasks([row], n, floor),
           ScreenTasks(rows + [row], |first|, floor));
    Joined(e, events, RowEvents(rows, floor), RowEvents([row], floor), RowEvents(rows + [row], floor));
  }

  lemma Joined<T>(all: seq<T>, before: seq<T>, a: seq<T>, b: seq<T>, both: seq<T>)
    requires all == before + a && both == a + b
    ensures all + b == before + both
  {
  }

  /** The inner loop: rows, screen tasks and events for one user's reranked documents. */
  method WriteRanked(store: MatchTables, queue: BufferedTaskQueue<Task>, ghost before: seq<MatchRow>, user: Id,
                     cycleAt: Time, pool: seq<Candidate>, ranked: seq<Ranked>, floor: Option<real>)
    returns (written: nat, screens: nat)
    requires forall j :: PairTaken(store.matches, user, j, cycleAt) <==> PairTaken(before, user, j, cycleAt)
    modifies store`matches, store`events, queue
    ensures var rows := Accepted(before, user, cycleAt, pool, ranked);
            && store.matches == old(store.matches) + rows
            && queue.pending == old(queue.pending) + ScreenTasks(rows, |old(store.matches)|, floor)
            && store.events == old(store.events) + RowEvents(rows, floor)
            && written == |rows|
            && screens == |ScreenTasks(rows, |old(store.matches)|, floor)|
  {
    written, screens := 0, 0;
    ghost var rows := [];
    for i := 0 to |ranked|
      invariant rows == Accepted(before, user, cycleAt, pool, ranked[..i])
      invariant store.matches == old(store.matches) + rows && written == |rows|
      invariant Written(old(store.matches), old(queue.pending), old(store.events), floor, rows)
                  (queue.pending, store.events, screens)
    {
      var doc := ranked[i];
      assert ranked[..i + 1][..i] == ranked[..i];
      AcceptedShape(before, user, cycleAt, pool, ranked[..i]);
      if doc.id.None? || doc.id.value !in JobIds(pool) {
        continue;
      }
      var job := doc.id.value;
      TakenAfterAppend(old(store.matches), rows, user, job, cycleAt);
      if PairTaken(store.matches, user, job, cycleAt) {
        continue;
      }
      var row := MatchRow(user, job, cycleAt, doc.score);
      AppendAssociates(old(store.matches), rows, [row]);
      NextWritten(old(store.matches), old(queue.pending), old(store.events), floor, rows, row, queue.pending,
                  store.events, screens);
      var screened := WriteRow(store, queue, row, floor);
      written := written + 1;
      screens := if screened then screens + 1 else screens;
      rows := rows + [row];
    }
    assert ranked[..|ranked|] == ranked;
  }

  lemma TakenAfterAppend(before: seq<MatchRow>, rows: seq<MatchRow>, user: Id, job: Id, cycleAt: Time)
    requires forall r :: r in rows ==> r.userId == user && r.cycleAt == cycleAt
    ensures PairTaken(before + rows, user, job, cycleAt) <==> PairTaken(before, user, job, cycleAt) || HasJob(rows, job)
  {
    var all := before + rows;
    if i :| 0 <= i < |before| && before[i].userId == user && before[i].jobId == job && before[i].cycleAt == cycleAt {
      assert all[i] == before[i];
    }
    if i :| 0 <= i < |rows| && rows[i].jobId == job {
      assert rows[i] in rows;
      assert all[|before| + i] == rows[i];
    }
    if i :| 0 <= i < |all| && all[i].userId == user && all[i].jobId == job && all[i].cycleAt == cycleAt {
      if i < |before| {
        assert before[i] == all[i];
      } else {
        assert rows[i - |before|] == all[i];
      }
    }
  }

  lemma {:induction false} ScreensAppend(a: seq<MatchRow>, b: seq<MatchRow>, first: nat, floor: Option<real>)
    ensures ScreenTasks(a + b, first, floor) == ScreenTasks(a, first, floor) + ScreenTasks(b, first + |a|, floor)
  {
    if b == [] {
      assert a + b == a;
    } else {
      ScreensAppend(a, b[..|b| - 1], first, floor);
      assert (a + b)[..|a + b| - 1] == a + b[..|b| - 1];
    }
  }

  /** Rows of other users take no pair of this one. */
  lemma OthersTakeNothing(before: seq<MatchRow>, rows: seq<MatchRow>, user: Id, cycleAt: Time)
    requires forall r :: r in rows ==> r.userId != user
    ensures forall j :: PairTaken(before + rows, user, j, cycleAt) <==> PairTaken(before, user, j, cycleAt)
    ensures forall day :: CountSince(before + rows, user, day) == CountSince(before, user, day)
  {
    forall j
      ensures PairTaken(before + rows, user, j, cycleAt) <==> PairTaken(before, user, j, cycleAt)
    {
      var all := before + rows;
      if i :| 0 <= i < |before| && before[i].userId == user && before[i].jobId == j && before[i].cycleAt == cycleAt {
        assert all[i] == before[i];
      }
      if i :| 0 <= i < |all| && all[i].userId == user && all[i].jobId == j && all[i].cycleAt == cycleAt {
        if i < |before| {
          assert before[i] == all[i];
        } else {
          assert rows[i - |before|] in rows;
        }
      }
    }
    forall day
      ensures CountSince(before + rows, user, day) == CountSince(before, user, day)
    {
      CountAppend(before, rows, user, day);
      CountAtMostLength(rows, user, day);
    }
  }

  /** One user's turn: the cap, the pool, the reranker call and the rows it leads to. */
  method MatchUser(store: MatchTables, queue: BufferedTaskQueue<Task>, before: seq<MatchRow>, user: Id, cycleAt: Time,
                   candidates: seq<Candidate>, settings: Settings, rerank: Reranker)
    returns (written: nat, screens: nat)
    requires forall j :: PairTaken(store.matches, user, j, cycleAt) <==> PairTaken(before, user, j, cycleAt)
    modifies store`matches, store`events, queue
    ensures var rows := UserRows(before, user, cycleAt, candidates, settings, rerank);
            && store.matches == old(store.matches) + rows
            && queue.pending == old(queue.pending) + ScreenTasks(rows, |old(store.matches)|, settings.floor)
            && store.events == old(store.events) + UserEvents(before, user, cycleAt, candidates, settings, rerank)
            && written == |rows|
            && screens == |ScreenTasks(rows, |old(store.matches)|, settings.floor)|
  {
    written, screens := 0, 0;
    var today := CountMatchesSince(before, user, DayStart(cycleAt));
    var remaining := if settings.dailyCap - today > 0 then settings.dailyCap - today else 0;
    if remaining == 0 {
      store.RecordEvent(Capped, Some(user), None);
      return;
    }
    var pool := Pool(candidates, remaining);
    if pool == [] {
      return;
    }
    var take := Min(settings.topN, remaining);
    var ranked := Prefix(rerank(pool, take), take);
    written, screens := WriteRanked(store, queue, before, user, cycleAt, pool, ranked, settings.floor);
  }

  lemma AppendAssociates<T>(a: seq<T>, b: seq<T>, c: seq<T>)
    ensures (a + b) + c == a + (b + c)
  {
  }

  /** What user i's turn starts from and adds. */
  lemma NextUser(before: seq<MatchRow>, users: seq<Id>, i: nat, cycleAt: Time, extracted: seq<Candidate>,
                 settings: Settings, rerank: Reranker)
    requires NoDuplicates(users) && i < |users|
    ensures var rows := CycleRows(before, users[..i], cycleAt, extracted, settings, rerank);
            var mine := UserRows(before, users[i], cycleAt, OfUser(extracted, users[i]), settings, rerank);
            && (forall j :: PairTaken(before + rows, users[i], j, cycleAt) <==> PairTaken(before, users[i], j, cycleAt))
            && CycleRows(before, users[..i + 1], cycleAt, extracted, settings, rerank) == rows + mine
    ensures CycleEvents(before, users[..i + 1], cycleAt, extracted, settings, rerank)
            == CycleEvents(before, users[..i], cycleAt, extracted, settings, rerank)
               + UserEvents(before, users[i], cycleAt, OfUser(extracted, users[i]), settings, rerank)
  {
    assert users[..i + 1][..i] == users[..i];
    var rows := CycleRows(before, users[..i], cycleAt, extracted, settings, rerank);
    var mine := UserRows(before, users[i], cycleAt, OfUser(extracted, users[i]), settings, rerank);
    CycleRowsAreNew(before, users[..i], cycleAt, extracted, settings, rerank);
    OthersTakeNothing(before, rows, users[i], cycleAt);
  }

  lemma ScreensOfBoth(before: seq<MatchRow>, rows: seq<MatchRow>, mine: seq<MatchRow>, floor: Option<real>)
    ensures ScreenTasks(rows + mine, |before|, floor)
            == ScreenTasks(rows, |before|, floor) + ScreenTasks(mine, |before + rows|, floor)
  {
    ScreensAppend(rows, mine, |before|, floor);
    assert |before + rows| == |before| + |rows|;
  }

  /** The loop over users: as many rows, tasks and events as MatchCycle gives them. */
  method MatchUsers(store: MatchTables, queue: BufferedTaskQueue<Task>, extracted: seq<Candidate>, cycleAt: Time,
                    settings: Settings, rerank: Reranker)
    returns (written: nat, screens: nat)
    modifies store`matches, store`events, queue
    ensures var before := old(store.matches);
            var users := FirstOccurrences(UserIds(extracted));
            var rows := CycleRows(before, users, cycleAt, extracted, settings, rerank);
            && store.matches == before + rows
            && queue.pending == old(queue.pending) + ScreenTasks(rows, |before|, settings.floor)
            && store.events == old(store.events) + CycleEvents(before, users, cycleAt, extracted, settings, rerank)
            && written == |rows|
            && screens == |ScreenTasks(rows, |before|, settings.floor)|
  {
    var before := store.matches;
    var users, byUser := GroupByUser(extracted);
    FirstOccurrencesAreDistinct(UserIds(extracted));
    written, screens := 0, 0;
    ghost var rows: seq<MatchRow> := [];
    for i := 0 to |users|
      invariant rows == CycleRows(before, users[..i], cycleAt, extracted, settings, rerank)
      invariant store.matches == before + rows
      invariant queue.pending == old(queue.pending) + ScreenTasks(rows, |before|, settings.floor)
      invariant store.events
                == old(store.events) + CycleEvents(before, users[..i], cycleAt, extracted, settings, rerank)
      invariant written == |rows| && screens == |ScreenTasks(rows, |before|, settings.floor)|
    {
      var user := users[i];
      NextUser(before, users, i, cycleAt, extracted, settings, rerank);
      ghost var mine := UserRows(before, user, cycleAt, OfUser(extracted, user), settings, rerank);
      ScreensOfBoth(before, rows, mine, settings.floor);
      assert user in byUser;
      var w, s := MatchUser(store, queue, before, user, cycleAt, byUser[user], settings, rerank);
      written, screens := written + w, screens + s;
      ghost var grown := CycleRows(before, users[..i + 1], cycleAt, extracted, settings, rerank);
      AppendAssociates(before, rows, mine);
      AppendAssociates(old(queue.pending), ScreenTasks(rows, |before|, settings.floor),
                       ScreenTasks(mine, |before + rows|, settings.floor));
      AppendAssociates(old(store.events), CycleEvents(before, users[..i], cycleAt, extracted, settings, rerank),
                       UserEvents(before, user, cycleAt, OfUser(extracted, user), settings, rerank));
      rows := grown;
    }
    assert users[..|users|] == users;
  }

  /** The events of a cycle. */
  function NewEvents(before: seq<MatchRow>, input: Input, userIds: seq<Id>, dirty: bool): seq<Event> {
    [Event(Started, None, None)] + ExtractEvents(Filtered(input.candidates, false))
    + CycleEvents(before, CycleUsers(input), input.cycleAt, Filtered(input.candidates, true), input.settings,
                  input.rerank)
    + (if dirty then ClearedEvents(userIds) else []) + [Event(Completed, None, None)]
  }

  /** The counts a cycle reports. */
  function Counted(before: seq<MatchRow>, input: Input): Result {
    var unextracted, rows := Filtered(input.candidates, false), NewRows(before, input);
    Result(|ExtractTasks(unextracted)|, |rows|, |ScreenTasks(rows, |before|, input.settings.floor)|, |unextracted|)
  }

  /** Everything after the candidate query. `store` and `queue` end exactly as MatchCycle says. */
  method RunCycle(store: MatchTables, queue: BufferedTaskQueue<Task>, input: Input, userIds: seq<Id>, dirty: bool)
    returns (result: Result)
    modifies store, queue
    ensures store.matches == old(store.matches) + NewRows(old(store.matches), input)
    ensures queue.pending == old(queue.pending) + Buffered(old(store.matches), input)
    ensures store.events == old(store.events) + NewEvents(old(store.matches), input, userIds, dirty)
    ensures store.rematch == if dirty then old(store.rematch) - (set u | u in userIds) else old(store.rematch)
    ensures result == Counted(old(store.matches), input)
    ensures result.matchesWritten
            == result.screensEnqueued + CountBelow(NewRows(old(store.matches), input), input.settings.floor)
  {
    store.RecordEvent(Started, None, None);
    var extracted, unextracted := Filtered(input.candidates, true), Filtered(input.candidates, false);
    var extracts := EnqueueExtracts(store, queue, unextracted);
    ghost var before := store.matches;
    var written, screens := MatchUsers(store, queue, extracted, input.cycleAt, input.settings, input.rerank);
    if dirty {
      store.rematch := store.rematch - (set u | u in userIds);
      RecordCleared(store, userIds);
    }
    store.RecordEvent(Completed, None, None);
    AppendAssociates(old(queue.pending), ExtractTasks(unextracted),
                     ScreenTasks(NewRows(before, input), |before|, input.settings.floor));
    EventsJoin(old(store.events), [Event(Started, None, None)], ExtractEvents(unextracted),
               CycleEvents(before, CycleUsers(input), input.cycleAt, extracted, input.settings, input.rerank),
               if dirty then ClearedEvents(userIds) else [], [Event(Completed, None, None)]);
    RowsAreScreenedOrBelow(NewRows(before, input), |before|, input.settings.floor);
    result := Result(extracts, written, screens, |unextracted|);
  }

  lemma EventsJoin(a: seq<Event>, b: seq<Event>, c: seq<Event>, d: seq<Event>, e: seq<Event>, f: seq<Event>)
    ensures a + b + c + d + e + f == a + (b + c + d + e + f)
    ensures e == [] ==> a + b + c + d + f == a + b + c + d + e + f
  {
  }

  function ClearedEvents(users: seq<Id>): seq<Event> {
    seq(|users|, i requires 0 <= i < |users| => Event(ClearedRematch, Some(users[i]), None))
  }

  method RecordCleared(store: MatchTables, users: seq<Id>)
    modifies store`events
    ensures store.events == old(store.events) + ClearedEvents(users)
  {
    for i := 0 to |users|
      invariant store.events == old(store.events) + ClearedEvents(users[..i])
    {
      store.RecordEvent(ClearedRematch, Some(users[i]), None);
      assert ClearedEvents(users[..i + 1]) == ClearedEvents(users[..i]) + [Event(ClearedRematch, Some(users[i]), None)];
    }
    assert users[..|users|] == users;
  }
}
