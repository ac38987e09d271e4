/**
 What each read and each commit of the paid writes leaves behind, column by column, and what it logs
 (app/extract/service.py, app/screen/service.py, app/analyze/service.py, app/ingest/store.py).
 */
module PaidOutcomes {
  import opened Wrappers
  import opened Text
  import opened PaidWrites

  /** No row changed, and the log has one more line. */
  ghost predicate LogsOnly(t: Tables, t': Tables, e: Event) {
    t' == t.(events := t.events + [e])
  }

  // ---------------------------------------------------------------- reads

  /**
   extract-job before its commit: it ends at once for an unknown, an extracted or a too short posting, and
   else does what the calls come to; it goes on only with what they computed and the row as it read it.
   */
  lemma ExtractReads(t: Tables, job: Id, middle: Middle<(Extraction, Metadata)>)
    ensures var (t', l) := ReadExtract(t, job, middle);
            && (job !in t.jobs ==> LogsOnly(t, t', Event(Extract, NotFound, None)) && l.None?)
            && (job in t.jobs ==>
                  var row := t.jobs[job];
                  && (row.extraction.Some? ==> LogsOnly(t, t', Event(Extract, Skipped, Some(job))) && l.None?)
                  && (row.extraction.None? && |Strip(row.rawJd)| < 40 ==>
                        LogsOnly(t, t', Event(Extract, Unparseable, Some(job))) && l.None?)
                  && (row.extraction.None? && |Strip(row.rawJd)| >= 40 ==>
                        if middle.Computes? then
                          t' == t && l == Some(ExtractLocal(job, row, middle.value.0, middle.value.1))
                        else LogsOnly(t, t', Event(Extract, middle.action, Some(job))) && l.None?))
  {
  }

  /** screen-job before its commit. */
  lemma ScreenReads(t: Tables, m: Id, middle: Middle<(string, string)>)
    ensures var (t', l) := ReadScreen(t, m, middle);
            && (m !in t.matches ==> LogsOnly(t, t', Event(Screen, NotFound, None)) && l.None?)
            && (m in t.matches && t.matches[m].verdict.Some? ==>
                  LogsOnly(t, t', Event(Screen, Skipped, Some(m))) && l.None?)
            && (m in t.matches && t.matches[m].verdict.None? ==>
                  if middle.Computes? then t' == t && l == Some(ScreenLocal(m, middle.value.0, middle.value.1))
                  else LogsOnly(t, t', Event(Screen, middle.action, Some(m))) && l.None?)
  {
  }

  /** Some report is stored for the match. */
  ghost predicate Reported(t: Tables, m: Id) {
    exists a :: a in t.analyses && t.analyses[a].matchId == m
  }

  /** analyze-match before its commit. */
  lemma AnalyzeReads(t: Tables, m: Id, middle: Middle<string>)
    ensures var (t', l) := ReadAnalyze(t, m, middle);
            && (m !in t.matches ==> LogsOnly(t, t', Event(Analyze, NotFound, None)) && l.None?)
            && (m in t.matches && Reported(t, m) ==> LogsOnly(t, t', Event(Analyze, Skipped, Some(m))) && l.None?)
            && (m in t.matches && !Reported(t, m) ==>
                  if middle.Computes? then t' == t && l == Some(AnalyzeLocal(m, middle.value))
                  else LogsOnly(t, t', Event(Analyze, middle.action, Some(m))) && l.None?)
  {
  }

  // ---------------------------------------------------------------- commits

  /** An offered work arrangement is usable when something is left of it once stripped, and that is not "unknown". */
  ghost predicate Usable(offered: Option<string>, v: string) {
    offered.Some? && v == Strip(offered.value) && v != "" && v != "unknown"
  }

  /** A column after the commit: a gap seen by the read takes what is offered; anything else stays as it now is. */
  ghost predicate GapTakes<T>(seen: Option<T>, offered: Option<T>, now: Option<T>, after: Option<T>) {
    after == match (seen, offered) case (None, Some(v)) => Some(v) case (_, _) => now
  }

  /**
   The extraction of a job nobody extracted before: the computed values are stored beside the posting as it
   now is, each column that the read saw empty takes the value offered for it, if any, and every other keeps
   what it holds at the commit.
   */
  lemma ExtractFillsGaps(t: Tables, l: Local)
    requires l.ExtractLocal? && l.job in t.jobs && t.jobs[l.job].extraction.None?
    ensures var t' := CommitExtract(t, l);
            var now, after := t.jobs[l.job], t'.jobs[l.job];
            && after.extraction == Some(l.computed) && after.rawJd == now.rawJd
            && (forall v :: l.seen.metadata.arrangement.None? && Usable(l.offered.arrangement, v) ==>
                  after.metadata.arrangement == Some(v))
            && (l.seen.metadata.arrangement.Some? || (forall v :: !Usable(l.offered.arrangement, v)) ==>
                  after.metadata.arrangement == now.metadata.arrangement)
            && GapTakes(l.seen.metadata.compMin, l.offered.compMin, now.metadata.compMin, after.metadata.compMin)
            && GapTakes(l.seen.metadata.compMax, l.offered.compMax, now.metadata.compMax, after.metadata.compMax)
            && t' == t.(jobs := t.jobs[l.job := after], events := t.events + [Event(Extract, Written, Some(l.job))])
  {
    if l.offered.arrangement.Some? {
      assert Usable(l.offered.arrangement, Strip(l.offered.arrangement.value))
             <==> UsableArrangement(l.offered.arrangement).Some?;
    }
  }

  /** A first screening: the label, and of the stripped reason the first 2000 characters, if any. */
  lemma ScreenLabels(t: Tables, l: Local)
    requires l.ScreenLocal? && l.matchId in t.matches && t.matches[l.matchId].verdict.None?
    ensures var t' := CommitScreen(t, l);
            var text := Strip(l.reason);
            var reason := if text == "" then None else Some(if |text| <= 2000 then text else text[..2000]);
            t' == t.(matches := t.matches[l.matchId := t.matches[l.matchId].(verdict := Some(Label(l.name, reason)))],
                     events := t.events + [Event(Screen, Written, Some(l.matchId))])
  {
  }

  /** The analysis of a match without a report stores the report under the new id. */
  lemma AnalyzeStores(t: Tables, l: Local, newId: Id)
    requires l.AnalyzeLocal? && l.matchId in t.matches && newId !in t.analyses && !Reported(t, l.matchId)
    ensures CommitAnalyze(t, l, newId)
            == t.(analyses := t.analyses[newId := Analysis(l.matchId, l.report)],
                  events := t.events + [Event(Analyze, Written, Some(l.matchId))])
  {
  }

  /** A commit that comes after another one for its row changes no row and logs the skip. */
  lemma LateCommitSkips(t: Tables, l: Local, newId: Id)
    requires LocalOk(t, l) && newId !in t.analyses
    ensures l.ExtractLocal? && t.jobs[l.job].extraction.Some? ==>
              LogsOnly(t, Commit(t, l, newId), Event(Extract, Skipped, Some(l.job)))
    ensures l.ScreenLocal? && t.matches[l.matchId].verdict.Some? ==>
              LogsOnly(t, Commit(t, l, newId), Event(Screen, Skipped, Some(l.matchId)))
    ensures l.AnalyzeLocal? && Reported(t, l.matchId) ==>
              LogsOnly(t, Commit(t, l, newId), Event(Analyze, Skipped, Some(l.matchId)))
  {
  }

  /** An upsert refreshes text and metadata of its own posting, and keeps its extraction; a new posting has none. */
  lemma IngestRefreshes(t: Tables, job: Id, rawJd: string, metadata: Metadata)
    ensures var t' := Ingest(t, job, rawJd, metadata);
            && t' == t.(jobs := t'.jobs) && t'.jobs.Keys == t.jobs.Keys + {job}
            && (forall j :: j in t.jobs && j != job ==> t'.jobs[j] == t.jobs[j])
            && t'.jobs[job].rawJd == rawJd && t'.jobs[job].metadata == metadata
            && t'.jobs[job].extraction == if job in t.jobs then t.jobs[job].extraction else None
  {
  }
}
