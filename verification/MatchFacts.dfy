/**
 What one match cycle does, said without the functions that compute it: who is pooled and gets a row, how
 many rows a day has left, and what the cycle's log and counters count.
 */
module MatchFacts {
  import opened Wrappers
  import opened Seqs
  import opened MatchCycle
  import MatchBatch

  // ---------------------------------------------------------------- a stable sort, by positions

  /** The list is these positions of s. */
  ghost predicate Picks<T>(list: seq<T>, s: seq<T>, p: seq<nat>) {
    && |list| == |p| && NoDuplicates(p)
    && forall i :: 0 <= i < |p| ==> p[i] < |s| && list[i] == s[p[i]]
  }

  /** Position a goes before b: by the order, and among equals the earlier one. */
  ghost predicate GoesBefore<T>(leq: (T, T) -> bool, s: seq<T>, a: nat, b: nat)
    requires a < |s| && b < |s|
  {
    leq(s[a], s[b]) && (leq(s[b], s[a]) ==> a < b)
  }

  ghost predicate InTurn<T>(leq: (T, T) -> bool, s: seq<T>, p: seq<nat>)
    requires forall i :: 0 <= i < |p| ==> p[i] < |s|
  {
    forall i, j :: 0 <= i < j < |p| ==> GoesBefore(leq, s, p[i], p[j])
  }

  lemma {:induction false} InsertSplits<T>(leq: (T, T) -> bool, x: T, s: seq<T>) returns (k: nat)
    ensures k <= |s| && Insert(leq, x, s) == s[..k] + [x] + s[k..]
    ensures forall i :: 0 <= i < k ==> !leq(x, s[i])
    ensures k < |s| ==> leq(x, s[k])
  {
    if s == [] || leq(x, s[0]) {
      k := 0;
      assert s[..0] + [x] + s[0..] == [x] + s;
    } else {
      var j := InsertSplits(leq, x, s[1..]);
      k := j + 1;
      SplitLater(x, s, j);
    }
  }

  lemma SplitLater<T>(x: T, s: seq<T>, j: nat)
    requires s != [] && j <= |s| - 1
    ensures [s[0]] + (s[1..][..j] + [x] + s[1..][j..]) == s[..j + 1] + [x] + s[j + 1..]
    ensures forall i :: 0 < i < j + 1 ==> s[i] == s[1..][i - 1]
  {
  }

  function Shifted(p: seq<nat>): seq<nat> {
    seq(|p|, i requires 0 <= i < |p| => p[i] + 1)
  }

  /** Sorting lists every position once, each in its turn. */
  lemma {:induction false} SortInTurn<T(!new)>(leq: (T, T) -> bool, s: seq<T>) returns (p: seq<nat>)
    requires TotalPreorder(leq)
    ensures |p| == |s| && Picks(Sort(leq, s), s, p) && InTurn(leq, s, p)
    ensures forall k: nat :: k < |s| ==> k in p
  {
    if s == [] {
      p := [];
    } else {
      var q := SortInTurn(leq, s[1..]);
      var rest := Sort(leq, s[1..]);
      var k := InsertSplits(leq, s[0], rest);
      p := Shifted(q[..k]) + [0] + Shifted(q[k..]);
      MovedAt(q, k, p);
      MovedPicks(s, q, rest, k, p);
      MovedInTurn(leq, s, q, rest, k, p);
      MovedIsAll(q, k, p);
    }
  }

  /** The positions of the rest moved up by one, with position 0 put in at k. */
  ghost predicate Moved(q: seq<nat>, k: nat, p: seq<nat>) {
    && k <= |q| && |p| == |q| + 1 && p[k] == 0
    && (forall i :: 0 <= i < k ==> p[i] == q[i] + 1)
    && (forall i :: k < i < |p| ==> p[i] == q[i - 1] + 1)
  }

  lemma MovedAt(q: seq<nat>, k: nat, p: seq<nat>)
    requires k <= |q| && p == Shifted(q[..k]) + [0] + Shifted(q[k..])
    ensures Moved(q, k, p)
  {
  }

  lemma MovedPicks<T>(s: seq<T>, q: seq<nat>, rest: seq<T>, k: nat, p: seq<nat>)
    requires s != [] && |q| == |s| - 1 && Picks(rest, s[1..], q) && Moved(q, k, p)
    ensures Picks(rest[..k] + [s[0]] + rest[k..], s, p)
  {
    var list := rest[..k] + [s[0]] + rest[k..];
    forall i | 0 <= i < |p|
      ensures p[i] < |s| && list[i] == s[p[i]]
    {
    }
  }

  lemma MovedIsAll(q: seq<nat>, k: nat, p: seq<nat>)
    requires Moved(q, k, p) && forall j: nat :: j < |q| ==> j in q
    ensures forall j: nat :: j < |p| ==> j in p
  {
    forall j: nat | j < |p|
      ensures j in p
    {
      if j == 0 {
        assert p[k] == j;
      } else {
        var below: nat := j - 1;
        assert below in q;
        var i :| 0 <= i < |q| && q[i] == below;
        assert p[if i < k then i else i + 1] == j;
      }
    }
  }

  lemma MovedInTurn<T(!new)>(leq: (T, T) -> bool, s: seq<T>, q: seq<nat>, rest: seq<T>, k: nat, p: seq<nat>)
    requires TotalPreorder(leq) && s != [] && |q| == |s| - 1 && Moved(q, k, p)
    requires Picks(rest, s[1..], q) && InTurn(leq, s[1..], q)
    requires (forall i :: 0 <= i < k ==> !leq(s[0], rest[i])) && (k < |rest| ==> leq(s[0], rest[k]))
    requires forall i :: 0 <= i < |p| ==> p[i] < |s|
    ensures InTurn(leq, s, p)
  {
    forall i, j | 0 <= i < j < |p|
      ensures GoesBefore(leq, s, p[i], p[j])
    {
      if i == k {
        FromThere(leq, s, q, rest, k, j - 1);
        assert s[p[j]] == rest[j - 1];
      } else if j == k {
        assert s[p[i]] == rest[i];
      } else {
        MovedPair(leq, s, q, k, p, i, j);
      }
    }
  }

  lemma MovedPair<T(!new)>(leq: (T, T) -> bool, s: seq<T>, q: seq<nat>, k: nat, p: seq<nat>, i: nat, j: nat)
    requires s != [] && |q| == |s| - 1 && Moved(q, k, p) && i < j < |p| && i != k && j != k
    requires (forall n :: 0 <= n < |q| ==> q[n] < |s[1..]|) && InTurn(leq, s[1..], q)
    ensures p[i] < |s| && p[j] < |s| && GoesBefore(leq, s, p[i], p[j])
  {
    var a, b := if i < k then i else i - 1, if j < k then j else j - 1;
    assert p[i] == q[a] + 1 && p[j] == q[b] + 1;
    assert GoesBefore(leq, s[1..], q[a], q[b]);
  }

  /** What is not before some place of a sorted list is not before any later place. */
  lemma FromThere<T(!new)>(leq: (T, T) -> bool, s: seq<T>, q: seq<nat>, rest: seq<T>, k: nat, j: nat)
    requires TotalPreorder(leq) && s != [] && k <= j < |q|
    requires Picks(rest, s[1..], q) && InTurn(leq, s[1..], q) && leq(s[0], rest[k])
    ensures leq(s[0], rest[j])
  {
    if k < j {
      assert GoesBefore(leq, s[1..], q[k], q[j]);
    }
  }

  lemma NotInPrefix<T>(s: seq<T>, n: nat, j: nat)
    requires n <= |s| && j < |s| && s[j] !in s[..n]
    ensures n <= j
  {
    InPrefix(s, n, j);
  }

  lemma InPrefix<T>(s: seq<T>, n: nat, j: nat)
    requires n <= |s| && j < |s|
    ensures j < n ==> s[j] in s[..n]
  {
    if j < n {
      assert s[..n][j] == s[j];
    }
  }

  // ---------------------------------------------------------------- the pool

  /** 0.7 times the similarity, if there is one, and 0.3 times the overlap. */
  function Worth(c: Candidate): real {
    0.7 * (match c.similarity case Some(v) => v case None => 0.0) + 0.3 * c.overlap
  }

  /** Candidate a is worth more than b, or as much and comes earlier. */
  ghost predicate Ahead(candidates: seq<Candidate>, a: nat, b: nat)
    requires a < |candidates| && b < |candidates|
  {
    Worth(candidates[a]) > Worth(candidates[b]) || (Worth(candidates[a]) == Worth(candidates[b]) && a < b)
  }

  /** The pool is these positions, the best ones, best first. */
  ghost predicate BestOf(pool: seq<Candidate>, candidates: seq<Candidate>, p: seq<nat>) {
    && Picks(pool, candidates, p)
    && (forall i, j :: 0 <= i < j < |p| ==> Ahead(candidates, p[i], p[j]))
    && (forall i, k: nat :: 0 <= i < |p| && k < |candidates| && k !in p ==> Ahead(candidates, p[i], k))
  }

  lemma BetterIsOrder()
    ensures TotalPreorder(RanksBefore)
  {
  }

  lemma GoesBeforeIsAhead(candidates: seq<Candidate>, a: nat, b: nat)
    requires a < |candidates| && b < |candidates| && GoesBefore(RanksBefore, candidates, a, b)
    ensures Ahead(candidates, a, b)
  {
  }

  /**
   As many candidates are pooled as the day has left, or all: the ones worth most, and among equals the
   earlier ones; they go to the reranker in that order.
   */
  lemma PoolIsBest(candidates: seq<Candidate>, remaining: nat) returns (p: seq<nat>)
    ensures |p| == if remaining <= |candidates| then remaining else |candidates|
    ensures BestOf(Pool(candidates, remaining), candidates, p)
  {
    BetterIsOrder();
    var all := SortInTurn(RanksBefore, candidates);
    p := all[..if remaining <= |candidates| then remaining else |candidates|];
    forall i, j | 0 <= i < j < |all|
      ensures Ahead(candidates, all[i], all[j])
    {
      GoesBeforeIsAhead(candidates, all[i], all[j]);
    }
    forall i, k: nat | 0 <= i < |p| && k < |candidates| && k !in p
      ensures Ahead(candidates, p[i], k)
    {
      assert k in all;
      var j :| 0 <= j < |all| && all[j] == k;
      NotInPrefix(all, |p|, j);
    }
  }

  // ---------------------------------------------------------------- what the day has left

  /** The user's matches since the day of the cycle began, by position. */
  ghost function Today(rows: seq<MatchRow>, user: Id, from: Time): set<nat> {
    set i | 0 <= i < |rows| && rows[i].userId == user && rows[i].cycleAt >= from
  }

  lemma {:induction false} CountIsSize(rows: seq<MatchRow>, user: Id, from: Time)
    ensures CountSince(rows, user, from) == |Today(rows, user, from)|
  {
    if rows != [] {
      var front, last := rows[..|rows| - 1], rows[|rows| - 1];
      CountIsSize(front, user, from);
      assert rows == front + [last];
      OneMoreToday(front, last, user, from);
    }
  }

  lemma OneMoreToday(front: seq<MatchRow>, last: MatchRow, user: Id, from: Time)
    ensures |Today(front + [last], user, from)|
            == |Today(front, user, from)| + if last.userId == user && last.cycleAt >= from then 1 else 0
  {
    if last.userId == user && last.cycleAt >= from {
      assert Today(front + [last], user, from) == Today(front, user, from) + {|front|};
    } else {
      assert Today(front + [last], user, from) == Today(front, user, from);
    }
  }

  /** A day has left the cap less the user's matches since the last multiple of 86400 seconds, if that is positive. */
  lemma RemainingIs(rows: seq<MatchRow>, user: Id, cycleAt: Time, settings: Settings)
    ensures var used := |Today(rows, user, cycleAt - cycleAt % 86400)|;
            Remaining(rows, user, cycleAt, settings)
            == if settings.dailyCap > used then settings.dailyCap - used else 0
  {
    CountIsSize(rows, user, cycleAt - cycleAt % 86400);
  }

  // ---------------------------------------------------------------- a user's candidates

  /** The list is the elements of s that pass, in order. */
  ghost predicate AllThat<T>(list: seq<T>, s: seq<T>, passes: T -> bool, p: seq<nat>) {
    && |list| == |p|
    && (forall i :: 0 <= i < |p| ==> p[i] < |s| && list[i] == s[p[i]] && passes(s[p[i]]))
    && (forall i, j :: 0 <= i < j < |p| ==> p[i] < p[j])
    && (forall k: nat :: k < |s| && passes(s[k]) ==> k in p)
  }

  lemma AllThatSnoc<T>(list: seq<T>, front: seq<T>, last: T, passes: T -> bool, p: seq<nat>)
    requires AllThat(list, front, passes, p)
    ensures passes(last) ==> AllThat(list + [last], front + [last], passes, p + [|front|])
    ensures !passes(last) ==> AllThat(list, front + [last], passes, p)
  {
    var s := front + [last];
    forall k: nat | k < |s| && passes(s[k])
      ensures k < |front| ==> k in p
      ensures k in p + [|front|]
    {
      if k < |front| {
        assert front[k] == s[k];
      }
    }
  }

  ghost function Theirs(user: Id): Candidate -> bool {
    (c: Candidate) => c.userId == user
  }

  ghost function Extracted(extracted: bool): Candidate -> bool {
    (c: Candidate) => c.extracted == extracted
  }

  lemma {:induction false} OfUserIs(candidates: seq<Candidate>, user: Id) returns (p: seq<nat>)
    ensures AllThat(OfUser(candidates, user), candidates, Theirs(user), p)
  {
    if candidates == [] {
      p := [];
    } else {
      var front, last := candidates[..|candidates| - 1], candidates[|candidates| - 1];
      p := OfUserIs(front, user);
      assert candidates == front + [last];
      AllThatSnoc(OfUser(front, user), front, last, Theirs(user), p);
      if last.userId == user {
        p := p + [|front|];
      } else {
        assert OfUser(front, user) + [] == OfUser(front, user);
      }
    }
  }

  lemma FilteredSnoc(front: seq<Candidate>, last: Candidate, extracted: bool)
    ensures Filtered(front + [last], extracted)
            == Filtered(front, extracted) + (if last.extracted == extracted then [last] else [])
    decreases |front|
  {
    if front == [] {
      assert [last][1..] == [];
    } else {
      FilteredSnoc(front[1..], last, extracted);
      assert (front + [last])[1..] == front[1..] + [last] && (front + [last])[0] == front[0];
    }
  }

  lemma {:induction false} FilteredIs(candidates: seq<Candidate>, extracted: bool) returns (p: seq<nat>)
    ensures AllThat(Filtered(candidates, extracted), candidates, Extracted(extracted), p)
  {
    if candidates == [] {
      p := [];
    } else {
      var front, last := candidates[..|candidates| - 1], candidates[|candidates| - 1];
      p := FilteredIs(front, extracted);
      assert candidates == front + [last];
      FilteredSnoc(front, last, extracted);
      AllThatSnoc(Filtered(front, extracted), front, last, Extracted(extracted), p);
      if last.extracted == extracted {
        p := p + [|front|];
      } else {
        assert Filtered(front, extracted) + [] == Filtered(front, extracted);
      }
    }
  }

  ghost function TheirsExtracted(user: Id): Candidate -> bool {
    (c: Candidate) => c.extracted && c.userId == user
  }

  /** The candidates matched for a user are the user's extracted ones, in row order. */
  lemma UsersCandidatesAre(candidates: seq<Candidate>, user: Id) returns (p: seq<nat>)
    ensures AllThat(OfUser(Filtered(candidates, true), user), candidates, TheirsExtracted(user), p)
  {
    var extracted := Filtered(candidates, true);
    var q := FilteredIs(candidates, true);
    var r := OfUserIs(extracted, user);
    p := Through(r, q);
    ThroughBoth(OfUser(extracted, user), extracted, candidates, user, r, q);
  }

  function Through(r: seq<nat>, q: seq<nat>): seq<nat>
    requires forall i :: 0 <= i < |r| ==> r[i] < |q|
  {
    seq(|r|, i requires 0 <= i < |r| => q[r[i]])
  }

  lemma ThroughBoth(list: seq<Candidate>, middle: seq<Candidate>, s: seq<Candidate>, user: Id, r: seq<nat>, q: seq<nat>)
    requires AllThat(list, middle, Theirs(user), r) && AllThat(middle, s, Extracted(true), q)
    ensures AllThat(list, s, TheirsExtracted(user), Through(r, q))
  {
    forall k: nat | k < |s| && TheirsExtracted(user)(s[k])
      ensures k in Through(r, q)
    {
      assert Extracted(true)(s[k]);
      var j :| 0 <= j < |q| && q[j] == k;
      assert Theirs(user)(middle[j]);
      var i :| 0 <= i < |r| && r[i] == j;
      assert Through(r, q)[i] == k;
    }
  }

  // ---------------------------------------------------------------- who gets a row

  /** What the reranker is asked and answers for a user, and how much of the answer counts. */
  datatype Turn = Turn(pool: seq<Candidate>, take: int, answer: seq<Ranked>)

  ghost predicate IsTurn(before: seq<MatchRow>, input: Input, user: Id, t: Turn) {
    var used := |Today(before, user, input.cycleAt - input.cycleAt % 86400)|;
    var remaining := if input.settings.dailyCap > used then input.settings.dailyCap - used else 0;
    && t.pool == Pool(OfUser(Filtered(input.candidates, true), user), remaining)
    && t.take == (if input.settings.topN <= remaining then input.settings.topN else remaining)
    && t.answer == input.rerank(t.pool, t.take)
  }

  /** The user has no row for this job in this cycle yet. */
  ghost predicate NewToCycle(before: seq<MatchRow>, user: Id, job: Id, cycleAt: Time) {
    forall r :: r in before ==> r.userId != user || r.jobId != job || r.cycleAt != cycleAt
  }

  /** Document k is among the first `take` of the answer, or, below zero, not among the last so many. */
  ghost predicate Counts(t: Turn, k: nat) {
    k < |t.answer| && k < if t.take >= 0 then t.take else |t.answer| + t.take
  }

  lemma {:induction false} CycleRowsHold(before: seq<MatchRow>, users: seq<Id>, input: Input, user: Id, row: MatchRow)
    requires user in users
    requires row in UserRows(before, user, input.cycleAt, OfUser(Filtered(input.candidates, true), user),
                             input.settings, input.rerank)
    ensures row in CycleRows(before, users, input.cycleAt, Filtered(input.candidates, true), input.settings,
                             input.rerank)
  {
    var front, last := users[..|users| - 1], users[|users| - 1];
    assert users == front + [last];
    if user != last {
      CycleRowsHold(before, front, input, user, row);
    }
  }

  lemma {:induction false} CycleRowsComeFrom(before: seq<MatchRow>, users: seq<Id>, input: Input, row: MatchRow)
    requires row in CycleRows(before, users, input.cycleAt, Filtered(input.candidates, true), input.settings,
                              input.rerank)
    ensures row.userId in users
    ensures row in UserRows(before, row.userId, input.cycleAt,
                            OfUser(Filtered(input.candidates, true), row.userId), input.settings, input.rerank)
  {
    var front, last := users[..|users| - 1], users[|users| - 1];
    assert users == front + [last];
    if row in CycleRows(before, front, input.cycleAt, Filtered(input.candidates, true), input.settings, input.rerank) {
      CycleRowsComeFrom(before, front, input, row);
    } else {
      UserRowsAreOwn(before, last, input.cycleAt, OfUser(Filtered(input.candidates, true), last), input.settings,
                     input.rerank);
    }
  }

  /** A user with a pooled candidate is one of the cycle's users. */
  lemma PooledIsUser(before: seq<MatchRow>, input: Input, user: Id, t: Turn)
    requires IsTurn(before, input, user, t) && t.pool != []
    ensures user in CycleUsers(input)
  {
    var extracted := Filtered(input.candidates, true);
    PoolNeedsCandidates(OfUser(extracted, user));
    CandidatesNameUser(extracted, user);
    FirstOccurrencesAreDistinct(UserIds(extracted));
  }

  lemma PoolNeedsCandidates(candidates: seq<Candidate>)
    ensures candidates == [] ==> forall remaining :: Pool(candidates, remaining) == []
  {
  }

  lemma CandidatesNameUser(candidates: seq<Candidate>, user: Id)
    requires OfUser(candidates, user) != []
    ensures user in UserIds(candidates)
  {
    var p := OfUserIs(candidates, user);
    assert Theirs(user)(candidates[p[0]]);
    assert UserIds(candidates)[p[0]] == user;
  }

  lemma TurnGivesRow(before: seq<MatchRow>, input: Input, user: Id, t: Turn, k: nat)
    requires IsTurn(before, input, user, t)
    requires Counts(t, k) && t.answer[k].id.Some?
    requires exists c :: c in t.pool && c.jobId == t.answer[k].id.value
    requires NewToCycle(before, user, t.answer[k].id.value, input.cycleAt)
    requires forall i :: 0 <= i < k ==> t.answer[i].id != t.answer[k].id
    ensures MatchRow(user, t.answer[k].id.value, input.cycleAt, t.answer[k].score)
            in UserRows(before, user, input.cycleAt, OfUser(Filtered(input.candidates, true), user), input.settings,
                        input.rerank)
  {
    RemainingIs(before, user, input.cycleAt, input.settings);
    var c :| c in t.pool && c.jobId == t.answer[k].id.value;
    InPool(t.pool, c);
    assert Prefix(t.answer, t.take)[k] == t.answer[k];
    AcceptedComplete(before, user, input.cycleAt, t.pool, Prefix(t.answer, t.take), k);
  }

  /**
   Of the documents that count of the reranker's answer, the first mention of every pooled job that has no row
   of this cycle yet gets its row, with its score.
   */
  lemma PooledGetsRow(before: seq<MatchRow>, input: Input, user: Id, t: Turn, k: nat)
    requires IsTurn(before, input, user, t)
    requires Counts(t, k) && t.answer[k].id.Some?
    requires exists c :: c in t.pool && c.jobId == t.answer[k].id.value
    requires NewToCycle(before, user, t.answer[k].id.value, input.cycleAt)
    requires forall i :: 0 <= i < k ==> t.answer[i].id != t.answer[k].id
    ensures MatchRow(user, t.answer[k].id.value, input.cycleAt, t.answer[k].score) in NewRows(before, input)
  {
    PooledIsUser(before, input, user, t);
    TurnGivesRow(before, input, user, t, k);
    CycleRowsHold(before, CycleUsers(input), input, user,
                  MatchRow(user, t.answer[k].id.value, input.cycleAt, t.answer[k].score));
  }

  lemma InPool(pool: seq<Candidate>, c: Candidate)
    requires c in pool
    ensures c.jobId in JobIds(pool)
  {
    var i :| 0 <= i < |pool| && pool[i] == c;
    assert JobIds(pool)[i] == c.jobId;
  }

  /** And every new row is such a document: of a pooled job, with its score, among those that count. */
  lemma RowWasPooled(before: seq<MatchRow>, input: Input, row: MatchRow, t: Turn)
    returns (k: nat)
    requires row in NewRows(before, input) && IsTurn(before, input, row.userId, t)
    ensures row.cycleAt == input.cycleAt && NewToCycle(before, row.userId, row.jobId, input.cycleAt)
    ensures exists c :: c in t.pool && c.jobId == row.jobId
    ensures Counts(t, k) && t.answer[k] == Ranked(Some(row.jobId), row.score)
  {
    RemainingIs(before, row.userId, input.cycleAt, input.settings);
    CycleRowsComeFrom(before, CycleUsers(input), input, row);
    AcceptedShape(before, row.userId, input.cycleAt, t.pool, Prefix(t.answer, t.take));
    k := AcceptedFromRanked(before, row.userId, input.cycleAt, t.pool, Prefix(t.answer, t.take), row);
    var i :| 0 <= i < |JobIds(t.pool)| && JobIds(t.pool)[i] == row.jobId;
    assert t.pool[i] in t.pool;
  }

  // ---------------------------------------------------------------- tasks, counters and log

  /** A row scores below the floor, if there is one. */
  ghost predicate TooLow(row: MatchRow, floor: Option<real>) {
    match floor
    case None => false
    case Some(least) => row.score < least
  }

  /** A cycle buffers a screen task, of user, job and row, for exactly the new rows not below the floor. */
  lemma ScreensAre(before: seq<MatchRow>, input: Input, user: Id, job: Id, m: nat)
    ensures ScreenTask(user, job, m) in Buffered(before, input) <==>
              && |before| <= m < |before| + |NewRows(before, input)|
              && var row := NewRows(before, input)[m - |before|];
              row.userId == user && row.jobId == job && !TooLow(row, input.settings.floor)
  {
    var rows, floor := NewRows(before, input), input.settings.floor;
    NoScreenAmongExtracts(Filtered(input.candidates, false), ScreenTask(user, job, m));
    ScreenOfRow(rows, |before|, floor, user, job, m);
  }

  lemma ScreenOfRow(rows: seq<MatchRow>, first: nat, floor: Option<real>, user: Id, job: Id, m: nat)
    ensures ScreenTask(user, job, m) in ScreenTasks(rows, first, floor) <==>
              && first <= m < first + |rows|
              && rows[m - first].userId == user && rows[m - first].jobId == job && !TooLow(rows[m - first], floor)
  {
    var t := ScreenTask(user, job, m);
    if t in ScreenTasks(rows, first, floor) {
      ScreenNamesRow(rows, first, floor, t);
    } else if first <= m < first + |rows| && !TooLow(rows[m - first], floor) {
      RowHasScreen(rows, first, floor, m - first);
    }
  }

  lemma NoScreenAmongExtracts(unextracted: seq<Candidate>, t: Task)
    requires t.ScreenTask?
    ensures t !in ExtractTasks(unextracted)
  {
  }

  lemma {:induction false} NoExtractAmongScreens(rows: seq<MatchRow>, first: nat, floor: Option<real>, j: Id)
    ensures ExtractTask(j) !in ScreenTasks(rows, first, floor)
  {
    if rows != [] {
      NoExtractAmongScreens(rows[..|rows| - 1], first, floor, j);
    }
  }

  /** And an extract task for exactly the jobs of its unextracted candidates. */
  lemma ExtractsAre(before: seq<MatchRow>, input: Input, j: Id)
    ensures ExtractTask(j) in Buffered(before, input) <==>
              exists c :: c in input.candidates && !c.extracted && c.jobId == j
  {
    var unextracted := Filtered(input.candidates, false);
    NoExtractAmongScreens(NewRows(before, input), |before|, input.settings.floor, j);
    OneExtractPerJob(unextracted);
    var p := FilteredIs(input.candidates, false);
    forall c
      ensures c in unextracted <==> c in input.candidates && !c.extracted
    {
      AllThatMembers(unextracted, input.candidates, Extracted(false), p, c);
    }
  }

  lemma AllThatMembers<T>(list: seq<T>, s: seq<T>, passes: T -> bool, p: seq<nat>, x: T)
    requires AllThat(list, s, passes, p)
    ensures x in list <==> x in s && passes(x)
  {
    if x in s && passes(x) {
      var k: nat :| k < |s| && s[k] == x;
      assert k in p;
      var i :| 0 <= i < |p| && p[i] == k;
      assert list[i] == x;
    }
    if x in list {
      var i :| 0 <= i < |list| && list[i] == x;
      assert s[p[i]] == x;
    }
  }

  /** How often an action is in the log. */
  function Tally(events: seq<Event>, a: Action): nat {
    if events == [] then 0
    else Tally(events[..|events| - 1], a) + if events[|events| - 1].action == a then 1 else 0
  }

  lemma TallySnoc(front: seq<Event>, e: Event, a: Action)
    ensures Tally(front + [e], a) == Tally(front, a) + if e.action == a then 1 else 0
  {
    assert (front + [e])[..|front|] == front;
  }

  lemma {:induction false} TallyAppend(x: seq<Event>, y: seq<Event>, a: Action)
    ensures Tally(x + y, a) == Tally(x, a) + Tally(y, a)
  {
    if y == [] {
      assert x + y == x;
    } else {
      var front, last := y[..|y| - 1], y[|y| - 1];
      TallyAppend(x, front, a);
      assert x + y == (x + front) + [last];
      TallySnoc(x + front, last, a);
    }
  }

  lemma TallyOne(e: Event, a: Action)
    ensures Tally([e], a) == if e.action == a then 1 else 0
  {
    TallySnoc([], e, a);
    assert [] + [e] == [e];
  }

  lemma TallyTwo(e: Event, f: Event, a: Action)
    ensures Tally([e, f], a) == (if e.action == a then 1 else 0) + (if f.action == a then 1 else 0)
  {
    TallySnoc([e], f, a);
    assert [e] + [f] == [e, f];
    TallyOne(e, a);
  }

  /** What writing these rows logs of one action. */
  function OfRows(rows: seq<MatchRow>, floor: Option<real>, a: Action): int {
    match a
    case Matched => |rows|
    case EnqueuedScreen => |rows| - CountBelow(rows, floor)
    case BelowScreenFloor => CountBelow(rows, floor)
    case _ => 0
  }

  lemma {:induction false} BelowAppend(x: seq<MatchRow>, y: seq<MatchRow>, floor: Option<real>)
    ensures CountBelow(x + y, floor) == CountBelow(x, floor) + CountBelow(y, floor)
  {
    if y == [] {
      assert x + y == x;
    } else {
      BelowAppend(x, y[..|y| - 1], floor);
      assert (x + y)[..|x + y| - 1] == x + y[..|y| - 1];
    }
  }

  lemma OfRowsAppend(x: seq<MatchRow>, y: seq<MatchRow>, floor: Option<real>, a: Action)
    ensures OfRows(x + y, floor, a) == OfRows(x, floor, a) + OfRows(y, floor, a)
  {
    BelowAppend(x, y, floor);
  }

  lemma {:induction false} RowsTally(rows: seq<MatchRow>, floor: Option<real>, a: Action)
    ensures Tally(RowEvents(rows, floor), a) == OfRows(rows, floor, a)
  {
    if rows != [] {
      var front, last := rows[..|rows| - 1], rows[|rows| - 1];
      RowsTally(front, floor, a);
      var matched := Event(Matched, Some(last.userId), Some(last.jobId));
      var judged := Event(if BelowFloor(last, floor) then BelowScreenFloor else EnqueuedScreen, Some(last.userId),
                          Some(last.jobId));
      TallyAppend(RowEvents(front, floor), [matched, judged], a);
      TallyTwo(matched, judged, a);
    }
  }

  lemma {:induction false} ExtractsTally(unextracted: seq<Candidate>, a: Action)
    ensures Tally(ExtractEvents(unextracted), a)
            == match a
               case DeferredUnextracted => |unextracted|
               case EnqueuedExtract => |ExtractTasks(unextracted)|
               case _ => 0
  {
    if unextracted != [] {
      var front, last := unextracted[..|unextracted| - 1], unextracted[|unextracted| - 1];
      ExtractsTally(front, a);
      assert unextracted == front + [last];
      ExtractSnoc(front, last);
      NextExtractTally(ExtractEvents(front), last, last.jobId in FirstOccurrences(JobIds(front)), a);
    }
  }

  lemma NextExtractTally(events: seq<Event>, c: Candidate, seen: bool, a: Action)
    ensures Tally(events + [Event(DeferredUnextracted, Some(c.userId), Some(c.jobId))]
                         + (if seen then [] else [Event(EnqueuedExtract, None, Some(c.jobId))]), a)
            == Tally(events, a) + (if a == DeferredUnextracted then 1 else 0)
               + (if a == EnqueuedExtract && !seen then 1 else 0)
  {
    var noted := Event(DeferredUnextracted, Some(c.userId), Some(c.jobId));
    TallySnoc(events, noted, a);
    if seen {
      assert events + [noted] + [] == events + [noted];
    } else {
      TallySnoc(events + [noted], Event(EnqueuedExtract, None, Some(c.jobId)), a);
    }
  }

  /** The users of a list whose day has nothing left, by position. */
  ghost function OutOfQuota(before: seq<MatchRow>, users: seq<Id>, cycleAt: Time, settings: Settings): set<nat> {
    set i | 0 <= i < |users| && Remaining(before, users[i], cycleAt, settings) == 0
  }

  lemma OneMoreOut(before: seq<MatchRow>, front: seq<Id>, last: Id, cycleAt: Time, settings: Settings)
    ensures |OutOfQuota(before, front + [last], cycleAt, settings)|
            == |OutOfQuota(before, front, cycleAt, settings)|
               + if Remaining(before, last, cycleAt, settings) == 0 then 1 else 0
  {
    if Remaining(before, last, cycleAt, settings) == 0 {
      assert OutOfQuota(before, front + [last], cycleAt, settings)
             == OutOfQuota(before, front, cycleAt, settings) + {|front|};
    } else {
      assert OutOfQuota(before, front + [last], cycleAt, settings) == OutOfQuota(before, front, cycleAt, settings);
    }
  }

  lemma UserTally(before: seq<MatchRow>, user: Id, cycleAt: Time, candidates: seq<Candidate>, settings: Settings,
                  rerank: Reranker, a: Action)
    ensures Tally(UserEvents(before, user, cycleAt, candidates, settings, rerank), a)
            == OfRows(UserRows(before, user, cycleAt, candidates, settings, rerank), settings.floor, a)
               + if a == Capped && Remaining(before, user, cycleAt, settings) == 0 then 1 else 0
  {
    TallyOne(Event(Capped, Some(user), None), a);
    RowsTally(UserRows(before, user, cycleAt, candidates, settings, rerank), settings.floor, a);
  }

  lemma {:induction false} CycleTally(before: seq<MatchRow>, users: seq<Id>, cycleAt: Time, extracted: seq<Candidate>,
                                      settings: Settings, rerank: Reranker, a: Action)
    ensures Tally(CycleEvents(before, users, cycleAt, extracted, settings, rerank), a)
            == OfRows(CycleRows(before, users, cycleAt, extracted, settings, rerank), settings.floor, a)
               + if a == Capped then |OutOfQuota(before, users, cycleAt, settings)| else 0
  {
    if users != [] {
      var front, last := users[..|users| - 1], users[|users| - 1];
      CycleTally(before, front, cycleAt, extracted, settings, rerank, a);
      assert users == front + [last];
      OneMoreOut(before, front, last, cycleAt, settings);
      UserTally(before, last, cycleAt, OfUser(extracted, last), settings, rerank, a);
      TallyAppend(CycleEvents(before, front, cycleAt, extracted, settings, rerank),
                  UserEvents(before, last, cycleAt, OfUser(extracted, last), settings, rerank), a);
      OfRowsAppend(CycleRows(before, front, cycleAt, extracted, settings, rerank),
                   UserRows(before, last, cycleAt, OfUser(extracted, last), settings, rerank), settings.floor, a);
    } else {
      assert OutOfQuota(before, users, cycleAt, settings) == {};
    }
  }

  lemma {:induction false} ClearedTally(users: seq<Id>, a: Action)
    ensures Tally(MatchBatch.ClearedEvents(users), a) == if a == ClearedRematch then |users| else 0
  {
    if users != [] {
      var front, last := users[..|users| - 1], users[|users| - 1];
      ClearedTally(front, a);
      assert MatchBatch.ClearedEvents(users)
             == MatchBatch.ClearedEvents(front) + [Event(ClearedRematch, Some(last), None)];
      TallySnoc(MatchBatch.ClearedEvents(front), Event(ClearedRematch, Some(last), None), a);
    }
  }

  /**
   What a cycle logs, action by action: it starts and completes once; a deferral for each unextracted
   candidate, and an extract for each of their jobs; a match for each row, and for each row either a screen
   or that it is too low; a cap for each of its users whose day has nothing left; and, when dirty, a cleared
   flag for each user it was asked about.
   */
  lemma LogCounts(before: seq<MatchRow>, input: Input, userIds: seq<Id>, dirty: bool, a: Action)
    ensures var rows, unextracted := NewRows(before, input), Filtered(input.candidates, false);
            Tally(MatchBatch.NewEvents(before, input, userIds, dirty), a)
            == match a
               case Started => 1
               case Completed => 1
               case DeferredUnextracted => |unextracted|
               case EnqueuedExtract => |ExtractTasks(unextracted)|
               case Matched => |rows|
               case EnqueuedScreen => |ScreenTasks(rows, |before|, input.settings.floor)|
               case BelowScreenFloor => CountBelow(rows, input.settings.floor)
               case Capped => |OutOfQuota(before, CycleUsers(input), input.cycleAt, input.settings)|
               case ClearedRematch => if dirty then |userIds| else 0
               case RetryableError => 0
  {
    var rows, unextracted := NewRows(before, input), Filtered(input.candidates, false);
    var extracts := ExtractEvents(unextracted);
    var cycle := CycleEvents(before, CycleUsers(input), input.cycleAt, Filtered(input.candidates, true), input.settings,
                             input.rerank);
    var cleared := if dirty then MatchBatch.ClearedEvents(userIds) else [];
    ExtractsTally(unextracted, a);
    CycleTally(before, CycleUsers(input), input.cycleAt, Filtered(input.candidates, true), input.settings, input.rerank,
               a);
    ClearedTally(userIds, a);
    ScreensAndBelow(rows, |before|, input.settings.floor);
    FiveParts(Event(Started, None, None), extracts, cycle, cleared, Event(Completed, None, None), a);
  }

  lemma FiveParts(first: Event, x: seq<Event>, y: seq<Event>, z: seq<Event>, last: Event, a: Action)
    ensures Tally([first] + x + y + z + [last], a)
            == (if first.action == a then 1 else 0) + Tally(x, a) + Tally(y, a) + Tally(z, a)
               + (if last.action == a then 1 else 0)
  {
    TallyOne(first, a);
    TallyAppend([first], x, a);
    TallyAppend([first] + x, y, a);
    TallyAppend([first] + x + y, z, a);
    TallySnoc([first] + x + y + z, last, a);
  }

  // ---------------------------------------------------------------- the reported counters

  /** The positions of the candidates that are not extracted. */
  ghost function Unextracted(candidates: seq<Candidate>): set<nat> {
    set i | 0 <= i < |candidates| && !candidates[i].extracted
  }

  lemma {:induction false} FilteredSize(candidates: seq<Candidate>)
    ensures |Filtered(candidates, false)| == |Unextracted(candidates)|
  {
    if candidates != [] {
      var front, last := candidates[..|candidates| - 1], candidates[|candidates| - 1];
      FilteredSize(front);
      assert candidates == front + [last];
      FilteredSnoc(front, last, false);
      OneMoreUnextracted(front, last);
    }
  }

  lemma OneMoreUnextracted(front: seq<Candidate>, last: Candidate)
    ensures |Unextracted(front + [last])| == |Unextracted(front)| + if last.extracted then 0 else 1
  {
    if last.extracted {
      assert Unextracted(front + [last]) == Unextracted(front);
    } else {
      assert Unextracted(front + [last]) == Unextracted(front) + {|front|};
    }
  }

  /** The positions of the rows that do not score below the floor. */
  ghost function HighEnough(rows: seq<MatchRow>, floor: Option<real>): set<nat> {
    set i | 0 <= i < |rows| && !TooLow(rows[i], floor)
  }

  lemma {:induction false} ScreensSize(rows: seq<MatchRow>, first: nat, floor: Option<real>)
    ensures |ScreenTasks(rows, first, floor)| == |HighEnough(rows, floor)|
  {
    if rows != [] {
      var front, last := rows[..|rows| - 1], rows[|rows| - 1];
      ScreensSize(front, first, floor);
      assert rows == front + [last];
      OneMoreHighEnough(front, last, floor);
    }
  }

  lemma OneMoreHighEnough(front: seq<MatchRow>, last: MatchRow, floor: Option<real>)
    ensures |HighEnough(front + [last], floor)| == |HighEnough(front, floor)| + if TooLow(last, floor) then 0 else 1
  {
    if TooLow(last, floor) {
      assert HighEnough(front + [last], floor) == HighEnough(front, floor);
    } else {
      assert HighEnough(front + [last], floor) == HighEnough(front, floor) + {|front|};
    }
  }

  /** What a cycle reports: distinct unextracted jobs, rows, rows that are not too low, and unextracted candidates. */
  lemma CountedIs(before: seq<MatchRow>, input: Input)
    ensures var r := MatchBatch.Counted(before, input);
            && r.extractsEnqueued == |set c | c in input.candidates && !c.extracted :: c.jobId|
            && r.matchesWritten == |NewRows(before, input)|
            && r.screensEnqueued == |HighEnough(NewRows(before, input), input.settings.floor)|
            && r.deferred == |Unextracted(input.candidates)|
  {
    var unextracted := Filtered(input.candidates, false);
    FilteredSize(input.candidates);
    ScreensSize(NewRows(before, input), |before|, input.settings.floor);
    var jobs := FirstOccurrences(JobIds(unextracted));
    var ids := set c | c in input.candidates && !c.extracted :: c.jobId;
    FirstOccurrencesAreDistinct(JobIds(unextracted));
    forall j
      ensures j in jobs <==> j in ids
    {
      JobsOfFiltered(input.candidates, j);
    }
    DistinctSize(jobs, ids);
  }

  lemma JobsOfFiltered(candidates: seq<Candidate>, j: Id)
    ensures j in JobIds(Filtered(candidates, false)) <==> exists c :: c in candidates && !c.extracted && c.jobId == j
  {
    var unextracted := Filtered(candidates, false);
    var p := FilteredIs(candidates, false);
    forall c
      ensures c in unextracted <==> c in candidates && !c.extracted
    {
      AllThatMembers(unextracted, candidates, Extracted(false), p, c);
    }
    if c :| c in unextracted && c.jobId == j {
      InPool(unextracted, c);
    }
    if j in JobIds(unextracted) {
      var i :| 0 <= i < |unextracted| && JobIds(unextracted)[i] == j;
      assert unextracted[i] in unextracted;
    }
  }
}
