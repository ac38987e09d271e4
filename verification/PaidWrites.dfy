/**
 The write-once columns behind the paid LLM calls: a job's extraction (extract-job), a match's label
 (screen-job) and a match's analysis (analyze-match).

 Each handler reads the row, spends its LLM calls, and only then writes: by an UPDATE guarded on the
 column still being NULL, or by an INSERT against a unique key inside a savepoint. Between its read
 and its write any number of other deliveries, and re-ingests of the posting, may commit.
 */
module PaidWrites {
  import opened Wrappers
  import opened Text

  type Id = nat

  datatype Extraction = Extraction(
    extractedAt: nat,
    seniority: Option<string>,
    hardRequirements: seq<string>,
    niceToHaves: seq<string>,
    skillIds: seq<string>,
    synthesizedDoc: string,
    embedding: seq<real>)

  /** The ATS metadata an extraction may fill where ingest left a gap. */
  datatype Metadata = Metadata(arrangement: Option<string>, compMin: Option<int>, compMax: Option<int>)

  datatype Job = Job(rawJd: string, metadata: Metadata, extraction: Option<Extraction>)

  datatype Label = Label(name: string, reason: Option<string>)

  datatype MatchRow = MatchRow(userId: Id, jobId: Id, verdict: Option<Label>)

  datatype Analysis = Analysis(matchId: Id, report: string)

  datatype Kind = Extract | Screen | Analyze

  datatype Action =
    | NotFound | Unparseable | MissingDocs | LlmPermanentFailure
    | SkillsTaxonomyMissing | RetryableError
    | Skipped   // skipped_cached, skipped_screened, skipped_analyzed
    | Written   // extracted, screened, analyzed

  datatype Event = Event(kind: Kind, action: Action, subject: Option<Id>)

  datatype Tables = Tables(
    jobs: map<Id, Job>,
    matches: map<Id, MatchRow>,
    analyses: map<Id, Analysis>,
    events: seq<Event>)

  /** What happens between the idempotency check and the write: arbitrary, but of one of three forms. */
  datatype Middle<+T> = Stops(action: Action) | Retries(action: Action) | Computes(value: T)

  predicate MiddleOk<T>(middle: Middle<T>) {
    && (middle.Stops? ==> middle.action in {NotFound, Unparseable, MissingDocs, LlmPermanentFailure})
    && (middle.Retries? ==> middle.action in {SkillsTaxonomyMissing, RetryableError})
  }

  const REASON_MAX_CHARS: nat := 2000
  const MIN_RAW_JD_CHARS: nat := 40

  /** A delivery that has computed its values and not yet written them; `seen` is the row as it read it. */
  datatype Local =
    | ExtractLocal(job: Id, seen: Job, computed: Extraction, offered: Metadata)
    | ScreenLocal(matchId: Id, name: string, reason: string)
    | AnalyzeLocal(matchId: Id, report: string)

  function Record(t: Tables, kind: Kind, action: Action, subject: Option<Id>): Tables {
    t.(events := t.events + [Event(kind, action, subject)])
  }

  // ---------------------------------------------------------------- reads

  function ReadExtract(t: Tables, job: Id, middle: Middle<(Extraction, Metadata)>): (Tables, Option<Local>) {
    if job !in t.jobs then (Record(t, Extract, NotFound, None), None)
    else if t.jobs[job].extraction.Some? then (Record(t, Extract, Skipped, Some(job)), None)
    else if |Strip(t.jobs[job].rawJd)| < MIN_RAW_JD_CHARS then (Record(t, Extract, Unparseable, Some(job)), None)
    else if middle.Computes? then (t, Some(ExtractLocal(job, t.jobs[job], middle.value.0, middle.value.1)))
    else (Record(t, Extract, middle.action, Some(job)), None)
  }

  function ReadScreen(t: Tables, m: Id, middle: Middle<(string, string)>): (Tables, Option<Local>) {
    if m !in t.matches then (Record(t, Screen, NotFound, None), None)
    else if t.matches[m].verdict.Some? then (Record(t, Screen, Skipped, Some(m)), None)
    else if middle.Computes? then (t, Some(ScreenLocal(m, middle.value.0, middle.value.1)))
    else (Record(t, Screen, middle.action, Some(m)), None)
  }

  predicate HasAnalysis(t: Tables, m: Id) {
    exists a :: a in t.analyses && t.analyses[a].matchId == m
  }

  function ReadAnalyze(t: Tables, m: Id, middle: Middle<string>): (Tables, Option<Local>) {
    if m !in t.matches then (Record(t, Analyze, NotFound, None), None)
    else if HasAnalysis(t, m) then (Record(t, Analyze, Skipped, Some(m)), None)
    else if middle.Computes? then (t, Some(AnalyzeLocal(m, middle.value)))
    else (Record(t, Analyze, middle.action, Some(m)), None)
  }

  // ---------------------------------------------------------------- writes

  function CleanOptional(value: Option<string>): Option<string> {
    if value.None? || Strip(value.value) == "" then None else Some(Strip(value.value))
  }

  function UsableArrangement(offered: Option<string>): Option<string> {
    var cleaned := CleanOptional(offered);
    if cleaned == Some("unknown") then None else cleaned
  }

  /** One column: filled when the row read had a gap there and the extraction offers a value. */
  function Filled<T>(seen: Option<T>, offered: Option<T>, current: Option<T>): Option<T> {
    if seen.None? && offered.Some? then offered else current
  }

  function FilledMetadata(seen: Metadata, offered: Metadata, current: Metadata): Metadata {
    Metadata(Filled(seen.arrangement, UsableArrangement(offered.arrangement), current.arrangement),
             Filled(seen.compMin, offered.compMin, current.compMin),
             Filled(seen.compMax, offered.compMax, current.compMax))
  }

  function ClippedReason(reason: string): Option<string> {
    var text := Strip(reason);
    var clipped := if |text| > REASON_MAX_CHARS then text[..REASON_MAX_CHARS] else text;
    if clipped == "" then None else Some(clipped)
  }

  /** The row a local names is there: rows are never deleted in these runs. */
  predicate LocalOk(t: Tables, l: Local) {
    match l
    case ExtractLocal(j, _, _, _) => j in t.jobs
    case ScreenLocal(m, _, _) => m in t.matches
    case AnalyzeLocal(m, _) => m in t.matches
  }

  /** UPDATE jobs ... WHERE extracted_at IS NULL */
  function CommitExtract(t: Tables, l: Local): Tables
    requires l.ExtractLocal? && LocalOk(t, l)
  {
    var current := t.jobs[l.job];
    if current.extraction.Some? then Record(t, Extract, Skipped, Some(l.job))
    else
      var metadata := FilledMetadata(l.seen.metadata, l.offered, current.metadata);
      var written := t.(jobs := t.jobs[l.job := current.(metadata := metadata, extraction := Some(l.computed))]);
      Record(written, Extract, Written, Some(l.job))
  }

  /** UPDATE matches ... WHERE qualification_label IS NULL */
  function CommitScreen(t: Tables, l: Local): Tables
    requires l.ScreenLocal? && LocalOk(t, l)
  {
    var current := t.matches[l.matchId];
    if current.verdict.Some? then Record(t, Screen, Skipped, Some(l.matchId))
    else
      var verdict := Label(l.name, ClippedReason(l.reason));
      Record(t.(matches := t.matches[l.matchId := current.(verdict := Some(verdict))]), Screen, Written,
             Some(l.matchId))
  }

  /** The INSERT: None is the IntegrityError of the unique key on match_id. */
  function InsertAnalysis(t: Tables, id: Id, row: Analysis): Option<Tables>
    requires id !in t.analyses
  {
    if HasAnalysis(t, row.matchId) then None else Some(t.(analyses := t.analyses[id := row]))
  }

  function CommitAnalyze(t: Tables, l: Local, newId: Id): Tables
    requires l.AnalyzeLocal? && LocalOk(t, l) && newId !in t.analyses
  {
    match InsertAnalysis(t, newId, Analysis(l.matchId, l.report))
    case None => Record(t, Analyze, Skipped, Some(l.matchId))
    case Some(inserted) => Record(inserted, Analyze, Written, Some(l.matchId))
  }

  function Commit(t: Tables, l: Local, newId: Id): Tables
    requires LocalOk(t, l) && newId !in t.analyses
  {
    match l
    case ExtractLocal(_, _, _, _) => CommitExtract(t, l)
    case ScreenLocal(_, _, _) => CommitScreen(t, l)
    case AnalyzeLocal(_, _) => CommitAnalyze(t, l, newId)
  }

  /** ingest-job's upsert: a known posting gets its metadata refreshed and keeps its extraction. */
  function Ingest(t: Tables, job: Id, rawJd: string, metadata: Metadata): Tables {
    var extraction := if job in t.jobs then t.jobs[job].extraction else None;
    t.(jobs := t.jobs[job := Job(rawJd, metadata, extraction)])
  }

  // ---------------------------------------------------------------- who wins

  function Subject(l: Local): Id {
    if l.ExtractLocal? then l.job else l.matchId
  }

  function KindOf(l: Local): Kind {
    match l
    case ExtractLocal(_, _, _, _) => Extract
    case ScreenLocal(_, _, _) => Screen
    case AnalyzeLocal(_, _) => Analyze
  }

  /** The write-once value for this kind of delivery and this row is already there. */
  predicate AlreadyWritten(t: Tables, kind: Kind, id: Id) {
    match kind
    case Extract => id in t.jobs && t.jobs[id].extraction.Some?
    case Screen => id in t.matches && t.matches[id].verdict.Some?
    case Analyze => HasAnalysis(t, id)
  }

  /**
   A delivery that reaches its write appends exactly one event: `written` with the value now in
   place, or, exactly when some other delivery got there first, `skipped` with every row untouched.
   */
  lemma CommitWritesOrSkips(t: Tables, l: Local, newId: Id)
    requires LocalOk(t, l) && newId !in t.analyses
    ensures var t' := Commit(t, l, newId);
            && t'.events
               == t.events + [Event(KindOf(l), if AlreadyWritten(t, KindOf(l), Subject(l)) then Skipped else Written,
                                              Some(Subject(l)))]
            && AlreadyWritten(t', KindOf(l), Subject(l))
            && (AlreadyWritten(t, KindOf(l), Subject(l)) ==> t' == t.(events := t'.events))
  {
    if l.AnalyzeLocal? && !HasAnalysis(t, l.matchId) {
      var t' := Commit(t, l, newId);
      assert newId in t'.analyses && t'.analyses[newId].matchId == l.matchId;
    }
  }

  /**
   "Never overwrite ingest-provided values" is checked against the row as it was read, not as it is.
   When the extraction is written, a value that ingest has meanwhile put into a column is overwritten
   exactly when the column was a gap at the read and the extraction offers something else for it; so
   never when no ingest came in between.
   */
  lemma IngestValueOverwrittenIff(t: Tables, l: Local)
    requires l.ExtractLocal? && LocalOk(t, l) && t.jobs[l.job].extraction.None?
    ensures var now := t.jobs[l.job].metadata;
            var after := CommitExtract(t, l).jobs[l.job].metadata;
            var seen := l.seen.metadata;
            var arrangement := UsableArrangement(l.offered.arrangement);
            && (now.arrangement.Some? ==>
                  (after.arrangement != now.arrangement <==>
                   seen.arrangement.None? && arrangement.Some? && arrangement != now.arrangement))
            && (now.compMin.Some? ==>
                  (after.compMin != now.compMin <==>
                   seen.compMin.None? && l.offered.compMin.Some? && l.offered.compMin != now.compMin))
            && (now.compMax.Some? ==>
                  (after.compMax != now.compMax <==>
                   seen.compMax.None? && l.offered.compMax.Some? && l.offered.compMax != now.compMax))
            && (seen == now ==>
                  (now.arrangement.Some? ==> after.arrangement == now.arrangement)
                  && (now.compMin.Some? ==> after.compMin == now.compMin)
                  && (now.compMax.Some? ==> after.compMax == now.compMax))
  {
  }
}

/** The three handlers as methods on tables that are updated in place. */
module PaidWriteHandlers {
  import opened Wrappers
  import opened Text
  import opened PaidWrites

  class PipelineTables {
    var jobs: map<Id, Job>
    var matches: map<Id, MatchRow>
    var analyses: map<Id, Analysis>
    var events: seq<Event>

    ghost function Tables(): Tables
      reads this
    {
      PaidWrites.Tables(jobs, matches, analyses, events)
    }

    method RecordEvent(kind: Kind, action: Action, subject: Option<Id>)
      modifies this`events
      ensures Tables() == Record(old(Tables()), kind, action, subject)
    {
      events := events + [Event(kind, action, subject)];
    }

    /** extract-job up to the point where its values are computed; None means it already ended. */
    method ExtractRead(job: Id, middle: Middle<(Extraction, Metadata)>) returns (l: Option<Local>)
      modifies this`events
      ensures (Tables(), l) == ReadExtract(old(Tables()), job, middle)
    {
      if job !in jobs {
        RecordEvent(Extract, NotFound, None);
        return None;
      }
      if jobs[job].extraction.Some? {
        RecordEvent(Extract, Skipped, Some(job));
        return None;
      }
      if |Strip(jobs[job].rawJd)| < MIN_RAW_JD_CHARS {
        RecordEvent(Extract, Unparseable, Some(job));
        return None;
      }
      if !middle.Computes? {
        RecordEvent(Extract, middle.action, Some(job));
        return None;
      }
      return Some(ExtractLocal(job, jobs[job], middle.value.0, middle.value.1));
    }

    method ExtractWrite(l: Local) returns (action: Action)
      requires l.ExtractLocal? && LocalOk(Tables(), l)
      modifies this
      ensures Tables() == CommitExtract(old(Tables()), l)
      ensures action == if AlreadyWritten(old(Tables()), Extract, l.job) then Skipped else Written
    {
      var row := jobs[l.job];
      if row.extraction.Some? {
        action := Skipped;
      } else {
        jobs := jobs[l.job := row.(metadata := FilledMetadata(l.seen.metadata, l.offered, row.metadata),
                                   extraction := Some(l.computed))];
        action := Written;
      }
      RecordEvent(Extract, action, Some(l.job));
    }

    /** _write_label: true when the guarded UPDATE changed the row. */
    method WriteLabel(m: Id, name: string, reason: string) returns (written: bool)
      requires m in matches
      modifies this`matches
      ensures written <==> old(matches[m].verdict.None?)
      ensures matches == if written
                         then old(matches)[m := old(matches[m]).(verdict := Some(Label(name, ClippedReason(reason))))]
                         else old(matches)
    {
      written := matches[m].verdict.None?;
      if written {
        matches := matches[m := matches[m].(verdict := Some(Label(name, ClippedReason(reason))))];
      }
    }

    method ScreenWrite(l: Local) returns (action: Action)
      requires l.ScreenLocal? && LocalOk(Tables(), l)
      modifies this
      ensures Tables() == CommitScreen(old(Tables()), l)
      ensures action == if AlreadyWritten(old(Tables()), Screen, l.matchId) then Skipped else Written
    {
      var written := WriteLabel(l.matchId, l.name, l.reason);
      action := if written then Written else Skipped;
      RecordEvent(Screen, action, Some(l.matchId));
    }

    /** The savepoint: on a unique-key conflict the insert is rolled back and only the event is kept. */
    method AnalyzeWrite(l: Local, newId: Id) returns (action: Action)
      requires l.AnalyzeLocal? && LocalOk(Tables(), l) && newId !in analyses
      modifies this
      ensures Tables() == CommitAnalyze(old(Tables()), l, newId)
      ensures action == if AlreadyWritten(old(Tables()), Analyze, l.matchId) then Skipped else Written
    {
      ghost var before := Tables();
      var savepoint := analyses;
      analyses := analyses[newId := Analysis(l.matchId, l.report)];
      var conflict := exists a :: a in savepoint && savepoint[a].matchId == l.matchId;
      assert conflict <==> HasAnalysis(before, l.matchId);
      if conflict {
        analyses := savepoint;
      }
      action := if conflict then Skipped else Written;
      RecordEvent(Analyze, action, Some(l.matchId));
    }
  }
}

/** Runs in which reads and writes of any number of deliveries interleave freely. */
module PaidWriteRuns {
  import opened Wrappers
  import opened PaidWrites

  datatype World = World(tables: Tables, locals: map<Id, Local>)

  datatype Step =
    | BeginExtract(delivery: Id, job: Id, extract: Middle<(Extraction, Metadata)>)
    | BeginScreen(delivery: Id, matchId: Id, screen: Middle<(string, string)>)
    | BeginAnalyze(delivery: Id, matchId: Id, analyze: Middle<string>)
    | Write(delivery: Id, newId: Id)
    | Crash(delivery: Id)
    | IngestPosting(job: Id, rawJd: string, metadata: Metadata)

  predicate Enabled(w: World, s: Step) {
    match s
    case BeginExtract(d, _, middle) => d !in w.locals && MiddleOk(middle)
    case BeginScreen(d, _, middle) => d !in w.locals && MiddleOk(middle)
    case BeginAnalyze(d, _, middle) => d !in w.locals && MiddleOk(middle)
    case Write(d, newId) => d in w.locals && LocalOk(w.tables, w.locals[d]) && newId !in w.tables.analyses
    case Crash(d) => true
    case IngestPosting(_, _, _) => true
  }

  function Started(w: World, d: Id, read: (Tables, Option<Local>)): World {
    World(read.0, if read.1.Some? then w.locals[d := read.1.value] else w.locals)
  }

  function Next(w: World, s: Step): World
    requires Enabled(w, s)
  {
    match s
    case BeginExtract(d, job, middle) => Started(w, d, ReadExtract(w.tables, job, middle))
    case BeginScreen(d, m, middle) => Started(w, d, ReadScreen(w.tables, m, middle))
    case BeginAnalyze(d, m, middle) => Started(w, d, ReadAnalyze(w.tables, m, middle))
    case Write(d, newId) => World(Commit(w.tables, w.locals[d], newId), w.locals - {d})
    case Crash(d) => w.(locals := w.locals - {d})
    case IngestPosting(job, rawJd, metadata) => w.(tables := Ingest(w.tables, job, rawJd, metadata))
  }

  ghost predicate IsRun(worlds: seq<World>, steps: seq<Step>) {
    && |worlds| == |steps| + 1
    && forall i :: 0 <= i < |steps| ==> Enabled(worlds[i], steps[i]) && worlds[i + 1] == Next(worlds[i], steps[i])
  }

  function WrittenCount(t: Tables, kind: Kind, id: Id): nat {
    multiset(t.events)[Event(kind, Written, Some(id))]
  }

  predicate OneAnalysisPerMatch(t: Tables) {
    forall a, b :: a in t.analyses && b in t.analyses && t.analyses[a].matchId == t.analyses[b].matchId ==> a == b
  }

  ghost predicate Inv(w: World) {
    && (forall d :: d in w.locals ==> LocalOk(w.tables, w.locals[d]))
    && OneAnalysisPerMatch(w.tables)
    && (forall kind, id :: WrittenCount(w.tables, kind, id) == if AlreadyWritten(w.tables, kind, id) then 1 else 0)
  }

  /** Nothing written, nothing in flight. */
  predicate Initial(w: World) {
    && w.locals == map[] && w.tables.events == [] && w.tables.analyses == map[]
    && (forall j :: j in w.tables.jobs ==> w.tables.jobs[j].extraction.None?)
    && (forall m :: m in w.tables.matches ==> w.tables.matches[m].verdict.None?)
  }

  /** Written values stay: the extraction, the label with its reason, and the analysis row. */
  ghost predicate Keeps(before: Tables, after: Tables) {
    && before.jobs.Keys <= after.jobs.Keys
    && before.matches.Keys <= after.matches.Keys
    && (forall j :: j in before.jobs ==>
                    (before.jobs[j].extraction.Some? ==> after.jobs[j].extraction == before.jobs[j].extraction))
    && (forall m :: m in before.matches ==>
                    (before.matches[m].verdict.Some? ==> after.matches[m].verdict == before.matches[m].verdict))
    && (forall a :: a in before.analyses ==> a in after.analyses && after.analyses[a] == before.analyses[a])
  }

  /** An event other than `written` leaves every count as it was. */
  lemma RecordKeepsCounts(t: Tables, e: Event)
    requires e.action != Written
    ensures forall kind, id :: WrittenCount(t.(events := t.events + [e]), kind, id) == WrittenCount(t, kind, id)
  {
  }

  lemma ReadKeeps(w: World, d: Id, read: (Tables, Option<Local>))
    requires Inv(w)
    requires read.0 == w.tables.(events := read.0.events)
    requires read.0.events == w.tables.events
             || exists e: Event :: e.action != Written && read.0.events == w.tables.events + [e]
    requires read.1.Some? ==> LocalOk(w.tables, read.1.value)
    ensures Inv(Started(w, d, read)) && Keeps(w.tables, read.0)
  {
    var w' := Started(w, d, read);
    forall kind, id
      ensures WrittenCount(w'.tables, kind, id) == if AlreadyWritten(w'.tables, kind, id) then 1 else 0
    {
      assert WrittenCount(w.tables, kind, id) == if AlreadyWritten(w.tables, kind, id) then 1 else 0;
      SameRowsSameWritten(w.tables, w'.tables, kind, id);
      if read.0.events != w.tables.events {
        var e: Event :| e.action != Written && read.0.events == w.tables.events + [e];
        RecordKeepsCounts(w.tables, e);
      }
    }
  }

  lemma SameRowsSameWritten(t: Tables, t': Tables, kind: Kind, id: Id)
    requires t' == t.(events := t'.events)
    ensures AlreadyWritten(t', kind, id) <==> AlreadyWritten(t, kind, id)
  {
    assert HasAnalysis(t', id) <==> HasAnalysis(t, id);
  }

  /** A write changes whether something is written for its own kind and row only. */
  lemma CommitIsLocal(t: Tables, l: Local, newId: Id, kind: Kind, id: Id)
    requires LocalOk(t, l) && newId !in t.analyses
    requires kind != KindOf(l) || id != Subject(l)
    ensures AlreadyWritten(Commit(t, l, newId), kind, id) <==> AlreadyWritten(t, kind, id)
  {
    var t' := Commit(t, l, newId);
    if kind == Analyze {
      assert HasAnalysis(t, id) ==> HasAnalysis(t', id) by {
        if HasAnalysis(t, id) {
          var a :| a in t.analyses && t.analyses[a].matchId == id;
          assert a in t'.analyses && t'.analyses[a].matchId == id;
        }
      }
      assert HasAnalysis(t', id) ==> HasAnalysis(t, id) by {
        if HasAnalysis(t', id) {
          var a :| a in t'.analyses && t'.analyses[a].matchId == id;
          assert a in t.analyses && t.analyses[a].matchId == id;
        }
      }
    }
  }

  lemma WriteKeeps(w: World, d: Id, newId: Id)
    requires Inv(w) && Enabled(w, Write(d, newId))
    ensures Inv(Next(w, Write(d, newId))) && Keeps(w.tables, Next(w, Write(d, newId)).tables)
  {
    var l := w.locals[d];
    var w' := Next(w, Write(d, newId));
    CommitWritesOrSkips(w.tables, l, newId);
    forall kind, id
      ensures WrittenCount(w'.tables, kind, id) == if AlreadyWritten(w'.tables, kind, id) then 1 else 0
    {
      assert WrittenCount(w.tables, kind, id) == if AlreadyWritten(w.tables, kind, id) then 1 else 0;
      if kind != KindOf(l) || id != Subject(l) {
        CommitIsLocal(w.tables, l, newId, kind, id);
      }
    }
  }

  lemma IngestKeeps(w: World, job: Id, rawJd: string, metadata: Metadata)
    requires Inv(w)
    ensures Inv(w.(tables := Ingest(w.tables, job, rawJd, metadata)))
    ensures Keeps(w.tables, Ingest(w.tables, job, rawJd, metadata))
  {
    var t' := Ingest(w.tables, job, rawJd, metadata);
    forall kind, id
      ensures WrittenCount(t', kind, id) == if AlreadyWritten(t', kind, id) then 1 else 0
    {
      assert WrittenCount(w.tables, kind, id) == if AlreadyWritten(w.tables, kind, id) then 1 else 0;
      assert HasAnalysis(t', id) <==> HasAnalysis(w.tables, id);
    }
  }

  lemma StepKeeps(w: World, s: Step)
    requires Inv(w) && Enabled(w, s)
    ensures Inv(Next(w, s)) && Keeps(w.tables, Next(w, s).tables)
  {
    match s
    case BeginExtract(d, job, middle) =>
      var read := ReadExtract(w.tables, job, middle);
      ReadKeeps(w, d, read);
    case BeginScreen(d, m, middle) =>
      var read := ReadScreen(w.tables, m, middle);
      ReadKeeps(w, d, read);
    case BeginAnalyze(d, m, middle) =>
      var read := ReadAnalyze(w.tables, m, middle);
      ReadKeeps(w, d, read);
    case Write(d, newId) => WriteKeeps(w, d, newId);
    case Crash(d) =>
    case IngestPosting(job, rawJd, metadata) => IngestKeeps(w, job, rawJd, metadata);
  }

  lemma {:induction false} RunInv(worlds: seq<World>, steps: seq<Step>, i: nat)
    requires IsRun(worlds, steps) && Initial(worlds[0]) && i < |worlds|
    ensures Inv(worlds[i])
  {
    if i > 0 {
      RunInv(worlds, steps, i - 1);
      StepKeeps(worlds[i - 1], steps[i - 1]);
    }
  }

  /**
   However deliveries interleave, crash and are redelivered, a job's extraction, a match's label and
   a match's analysis are written at most once: once there, they never change.
   */
  lemma {:induction false} WrittenOnce(worlds: seq<World>, steps: seq<Step>, i: nat, j: nat)
    requires IsRun(worlds, steps) && Initial(worlds[0]) && i <= j < |worlds|
    ensures Keeps(worlds[i].tables, worlds[j].tables)
    decreases j
  {
    if i < j {
      WrittenOnce(worlds, steps, i, j - 1);
      RunInv(worlds, steps, j - 1);
      StepKeeps(worlds[j - 1], steps[j - 1]);
    }
  }

  /**
   At every point of every run there is exactly one extracted / screened / analyzed event for every
   row that has its value and none for a row that has not, and no match has two analyses.
   */
  lemma OneEventPerWrittenRow(worlds: seq<World>, steps: seq<Step>, i: nat, kind: Kind, id: Id)
    requires IsRun(worlds, steps) && Initial(worlds[0]) && i < |worlds|
    ensures WrittenCount(worlds[i].tables, kind, id) == if AlreadyWritten(worlds[i].tables, kind, id) then 1 else 0
    ensures OneAnalysisPerMatch(worlds[i].tables)
  {
    RunInv(worlds, steps, i);
  }

  /** Of two writes of one kind for one row, the later one is a loser and ends in `skipped`. */
  lemma LaterWriteSkips(worlds: seq<World>, steps: seq<Step>, i: nat, j: nat)
    requires IsRun(worlds, steps) && Initial(worlds[0]) && i < j < |steps|
    requires steps[i].Write? && steps[j].Write?
    requires KindOf(worlds[i].locals[steps[i].delivery]) == KindOf(worlds[j].locals[steps[j].delivery])
    requires Subject(worlds[i].locals[steps[i].delivery]) == Subject(worlds[j].locals[steps[j].delivery])
    ensures var l := worlds[j].locals[steps[j].delivery];
            worlds[j + 1].tables.events == worlds[j].tables.events + [Event(KindOf(l), Skipped, Some(Subject(l)))]
  {
    var l := worlds[i].locals[steps[i].delivery];
    CommitWritesOrSkips(worlds[i].tables, l, steps[i].newId);
    WrittenOnce(worlds, steps, i + 1, j);
    StillWritten(worlds[i + 1].tables, worlds[j].tables, KindOf(l), Subject(l));
    CommitWritesOrSkips(worlds[j].tables, worlds[j].locals[steps[j].delivery], steps[j].newId);
  }

  lemma StillWritten(before: Tables, after: Tables, kind: Kind, id: Id)
    requires Keeps(before, after) && AlreadyWritten(before, kind, id)
    ensures AlreadyWritten(after, kind, id)
  {
    if kind == Analyze {
      var a :| a in before.analyses && before.analyses[a].matchId == id;
      assert a in after.analyses && after.analyses[a].matchId == id;
    }
  }

  /**
   A run in which extraction does overwrite a value ingest provided: it reads a posting without a work
   arrangement, the posting is ingested again with one, and then the extraction writes its own.
   */
  lemma IngestValueCanBeOverwritten(rawJd: string, at: Extraction)
    requires |Text.Strip(rawJd)| >= MIN_RAW_JD_CHARS
    ensures var gap := Metadata(None, None, None);
            var w0 := World(Tables(map[0 := Job(rawJd, gap, None)], map[], map[], []), map[]);
            var s0 := BeginExtract(0, 0, Computes((at, Metadata(Some("hybrid"), None, None))));
            && Initial(w0) && Enabled(w0, s0)
            && var w1 := Next(w0, s0);
            var s1 := IngestPosting(0, rawJd, Metadata(Some("remote"), None, None));
            && Enabled(w1, s1)
            && var w2 := Next(w1, s1);
            && w2.tables.jobs[0].metadata.arrangement == Some("remote")
            && Enabled(w2, Write(0, 0))
            && Next(w2, Write(0, 0)).tables.jobs[0].metadata.arrangement == Some("hybrid")
  {
    Text.TrimmedStrip("hybrid");
  }
}
