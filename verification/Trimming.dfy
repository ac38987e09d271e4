/** The job document for reranking (app/extract/synthesize.py): requirements go first, then skills, then a hard clip. */
module JobDocument {
  import opened Text
  import opened Wrappers

  const SYNTH_DOC_MAX_TOKENS: nat := 500
  const CHARS_PER_TOKEN: nat := 4
  const SYNTH_DOC_MAX_CHARS: nat := SYNTH_DOC_MAX_TOKENS * CHARS_PER_TOKEN

  /** ceil(chars / 4). */
  function EstimateTokens(text: string): nat {
    if text == "" then 0 else (|text| + CHARS_PER_TOKEN - 1) / CHARS_PER_TOKEN
  }

  lemma TokensBoundChars(text: string, tokens: nat)
    ensures EstimateTokens(text) <= tokens <==> |text| <= CHARS_PER_TOKEN * tokens
  {
  }

  datatype Fields = Fields(title: string, seniority: string, compMin: Option<int>, compMax: Option<int>)

  function CompLine(show: int -> string, f: Fields): Option<string> {
    if f.compMin.None? && f.compMax.None? then None
    else if f.compMin.Some? && f.compMax.Some?
      then Some("Compensation: " + show(f.compMin.value) + "-" + show(f.compMax.value))
    else if f.compMin.Some? then Some("Compensation: " + show(f.compMin.value) + "+")
    else Some("Compensation: up to " + show(f.compMax.value))
  }

  function Lines(show: int -> string, f: Fields, skills: seq<string>, reqs: seq<string>): seq<string> {
    (if Strip(f.title) != "" then ["Title: " + Strip(f.title)] else [])
    + (if Strip(f.seniority) != "" then ["Seniority: " + Strip(f.seniority)] else [])
    + (if skills != [] then ["Skills: " + Join("; ", skills)] else [])
    + (if reqs != [] then ["Hard requirements: " + Join("; ", reqs)] else [])
    + (if CompLine(show, f).Some? then [CompLine(show, f).value] else [])
  }

  function Render(show: int -> string, f: Fields, skills: seq<string>, reqs: seq<string>): string {
    Join("\n", Lines(show, f, skills, reqs))
  }

  function NonBlank(values: seq<string>): seq<string> {
    if values == [] then []
    else
      var last := Strip(values[|values| - 1]);
      NonBlank(values[..|values| - 1]) + (if last == "" then [] else [last])
  }

  predicate Fits(doc: string) {
    EstimateTokens(doc) <= SYNTH_DOC_MAX_TOKENS
  }

  /**
   k skills and j requirements are kept: the longest lists that fit, skills only being dropped when no
   requirement is left.
   */
  ghost predicate IsLongestFit(show: int -> string, f: Fields, skills: seq<string>, reqs: seq<string>, k: nat, j: nat) {
    && k <= |skills| && j <= |reqs|
    && (k < |skills| ==> j == 0)
    && (forall i :: j < i <= |reqs| ==> !Fits(Render(show, f, skills, reqs[..i])))
    && (k < |skills| ==> forall i :: k < i <= |skills| ==> !Fits(Render(show, f, skills[..i], [])))
    && (Fits(Render(show, f, skills[..k], reqs[..j])) || (k == 0 && j == 0))
  }

  /** The document is always within the bound: the longest fit when there is one, else the clipped header. */
  method BuildSynthesizedDoc(show: int -> string, f: Fields, skillLabels: seq<string>, hardRequirements: seq<string>)
    returns (doc: string, ghost k: nat, ghost j: nat)
    ensures EstimateTokens(doc) <= SYNTH_DOC_MAX_TOKENS
    ensures IsLongestFit(show, f, NonBlank(skillLabels), NonBlank(hardRequirements), k, j)
    ensures var kept := Render(show, f, NonBlank(skillLabels)[..k], NonBlank(hardRequirements)[..j]);
            doc == if Fits(kept) then kept else Render(show, f, [], [])[..SYNTH_DOC_MAX_CHARS]
  {
    var allSkills, allReqs := NonBlank(skillLabels), NonBlank(hardRequirements);
    var skills, reqs := allSkills, allReqs;
    k, j := |skills|, |reqs|;
    doc := Render(show, f, skills, reqs);
    while EstimateTokens(doc) > SYNTH_DOC_MAX_TOKENS && reqs != []
      invariant Dropping(show, f, allSkills, allReqs, skills, reqs, doc, k, j) && k == |allSkills|
      decreases j
    {
      DropRequirement(show, f, allSkills, allReqs, skills, reqs, doc, k, j);
      reqs, j := reqs[..|reqs| - 1], j - 1;
      doc := Render(show, f, skills, reqs);
    }
    while EstimateTokens(doc) > SYNTH_DOC_MAX_TOKENS && skills != []
      invariant Dropping(show, f, allSkills, allReqs, skills, reqs, doc, k, j) && (!Fits(doc) ==> j == 0)
      decreases k
    {
      DropSkill(show, f, allSkills, allReqs, skills, reqs, doc, k, j);
      skills, k := skills[..|skills| - 1], k - 1;
      doc := Render(show, f, skills, reqs);
    }
    if EstimateTokens(doc) > SYNTH_DOC_MAX_TOKENS {
      doc := Render(show, f, [], []);
      if EstimateTokens(doc) > SYNTH_DOC_MAX_TOKENS {
        TokensBoundChars(doc, SYNTH_DOC_MAX_TOKENS);
        doc := doc[..SYNTH_DOC_MAX_CHARS];
        TokensBoundChars(doc, SYNTH_DOC_MAX_TOKENS);
      }
    }
  }

  /** Where the dropping stands: everything longer has been tried and did not fit. */
  ghost predicate Dropping(show: int -> string, f: Fields, allSkills: seq<string>, allReqs: seq<string>,
                           skills: seq<string>, reqs: seq<string>, doc: string, k: nat, j: nat) {
    && k <= |allSkills| && j <= |allReqs| && skills == allSkills[..k] && reqs == allReqs[..j]
    && doc == Render(show, f, skills, reqs)
    && (k < |allSkills| ==> j == 0)
    && (forall i :: j < i <= |allReqs| ==> !Fits(Render(show, f, allSkills, allReqs[..i])))
    && (k < |allSkills| ==> forall i :: k < i <= |allSkills| ==> !Fits(Render(show, f, allSkills[..i], [])))
  }

  lemma DropRequirement(show: int -> string, f: Fields, allSkills: seq<string>, allReqs: seq<string>,
                        skills: seq<string>, reqs: seq<string>, doc: string, k: nat, j: nat)
    requires Dropping(show, f, allSkills, allReqs, skills, reqs, doc, k, j) && k == |allSkills| && reqs != []
             && !Fits(doc)
    ensures j > 0
    ensures Dropping(show, f, allSkills, allReqs, skills, reqs[..|reqs| - 1],
                     Render(show, f, skills, reqs[..|reqs| - 1]), k, j - 1)
  {
    assert allReqs[..j][..j - 1] == allReqs[..j - 1];
    assert skills == allSkills;
  }

  lemma DropSkill(show: int -> string, f: Fields, allSkills: seq<string>, allReqs: seq<string>, skills: seq<string>,
                  reqs: seq<string>, doc: string, k: nat, j: nat)
    requires Dropping(show, f, allSkills, allReqs, skills, reqs, doc, k, j) && j == 0 && skills != [] && !Fits(doc)
    ensures k > 0
    ensures Dropping(show, f, allSkills, allReqs, skills[..|skills| - 1], reqs,
                     Render(show, f, skills[..|skills| - 1], reqs), k - 1, j)
  {
    assert allSkills[..k][..k - 1] == allSkills[..k - 1];
    assert reqs == [];
  }

  /** The longest fit leaves no choice. */
  lemma LongestFitUnique(show: int -> string, f: Fields, skills: seq<string>, reqs: seq<string>, k: nat, j: nat,
                         k': nat, j': nat)
    requires IsLongestFit(show, f, skills, reqs, k, j) && IsLongestFit(show, f, skills, reqs, k', j')
    ensures k == k' && j == j'
  {
    assert skills[..|skills|] == skills && reqs[..0] == [];
  }
}

/** The profile document (app/profile/synthesize.py): bullets and roles go oldest first. */
module ProfileDocument {
  import opened JobDocument
  import opened Text

  datatype Entry = Entry(title: string, employer: string, start: string, end: string, isCurrent: bool, location: string)

  /** A role with the bullets it still has. */
  datatype Role = Role(entry: Entry, bullets: seq<string>)

  /** Oldest first. */
  type History = seq<Role>

  function RoleLine(e: Entry): string {
    var end := if e.isCurrent || e.end == "" then "present" else e.end;
    var start := if e.start == "" then "?" else e.start;
    e.title + " \U{2014} " + e.employer + " (" + start + " \U{2013} " + end + ")"
    + (if e.location != "" then " (" + e.location + ")" else "")
  }

  function BulletLines(bullets: seq<string>): seq<string> {
    if bullets == [] then [] else BulletLines(bullets[..|bullets| - 1]) + ["- " + bullets[|bullets| - 1]]
  }

  function HistoryLines(history: History): seq<string> {
    if history == [] then []
    else
      var last := history[|history| - 1];
      HistoryLines(history[..|history| - 1]) + [RoleLine(last.entry)] + BulletLines(last.bullets) + [""]
  }

  function RenderProfile(header: seq<string>, history: History): string {
    RStrip(Join("\n", header + ["", "Experience:"] + HistoryLines(history))) + "\n"
  }

  // ---------------------------------------------------------------- the chain of trims

  /** Nothing left to drop: one role or none, and no bullet. */
  predicate Bare(history: History) {
    |history| == 0 || (|history| == 1 && history[0].bullets == [])
  }

  function PopBullet(history: History): History
    requires history != [] && history[0].bullets != []
  {
    var oldest := history[0];
    [Role(oldest.entry, oldest.bullets[..|oldest.bullets| - 1])] + history[1..]
  }

  /** One trim: the last bullet of the oldest role, or the oldest role when it has none. */
  function Trim(history: History): History
    requires !Bare(history)
  {
    if history[0].bullets != [] then PopBullet(history) else history[1..]
  }

  /** The history after so many trims, as long as there is something to drop. */
  function AfterTrims(history: History, n: nat): History {
    if n == 0 then history
    else
      var before := AfterTrims(history, n - 1);
      if Bare(before) then before else Trim(before)
  }

  function Bullets(history: History): nat {
    if history == [] then 0 else |history[0].bullets| + Bullets(history[1..])
  }

  lemma TrimShrinks(history: History)
    requires !Bare(history)
    ensures |Trim(history)| + Bullets(Trim(history)) < |history| + Bullets(history)
    ensures Trim(history) != []
  {
    if history[0].bullets != [] {
      assert Trim(history)[1..] == history[1..];
    }
  }

  /** k whole roles are gone, and the oldest kept one has its first b bullets. */
  ghost predicate IsSuffix(full: History, kept: History, k: nat, b: nat) {
    && k < |full| && b <= |full[k].bullets|
    && kept == [Role(full[k].entry, full[k].bullets[..b])] + full[k + 1..]
  }

  lemma TrimSuffix(full: History, kept: History, k: nat, b: nat) returns (k': nat, b': nat)
    requires IsSuffix(full, kept, k, b) && !Bare(kept)
    ensures IsSuffix(full, Trim(kept), k', b')
  {
    assert kept[1..] == full[k + 1..] && kept[0].bullets == full[k].bullets[..b];
    if b > 0 {
      k', b' := k, b - 1;
      assert kept[0].bullets[..b - 1] == full[k].bullets[..b - 1];
    } else {
      assert full[k + 1..] != [];
      k', b' := k + 1, |full[k + 1].bullets|;
      assert full[k + 1].bullets[..b'] == full[k + 1].bullets;
      assert full[k + 1..] == [full[k + 1]] + full[k + 2..];
    }
  }

  /**
   Every stage of the chain is a suffix of the roles whose oldest may have lost trailing bullets; the
   newest role stays.
   */
  lemma {:induction false} TrimmedIsSuffix(full: History, n: nat) returns (k: nat, b: nat)
    requires full != []
    ensures IsSuffix(full, AfterTrims(full, n), k, b)
  {
    if n == 0 {
      k, b := 0, |full[0].bullets|;
      assert full[0].bullets[..b] == full[0].bullets;
      assert full == [full[0]] + full[1..];
    } else {
      k, b := TrimmedIsSuffix(full, n - 1);
      if !Bare(AfterTrims(full, n - 1)) {
        k, b := TrimSuffix(full, AfterTrims(full, n - 1), k, b);
      }
    }
  }

  // ---------------------------------------------------------------- first fit

  predicate FitsIn(header: seq<string>, history: History, maxTokens: nat) {
    EstimateTokens(RenderProfile(header, history)) <= maxTokens
  }

  /** n is the first stage that fits, or the last stage when none does. */
  ghost predicate IsFirstFit(header: seq<string>, history: History, maxTokens: nat, n: nat) {
    && (forall m :: 0 <= m < n ==> !FitsIn(header, AfterTrims(history, m), maxTokens) && !Bare(AfterTrims(history, m)))
    && (FitsIn(header, AfterTrims(history, n), maxTokens) || Bare(AfterTrims(history, n)))
  }

  function Clip(doc: string, maxTokens: nat): string
    requires EstimateTokens(doc) > maxTokens
  {
    TokensBoundChars(doc, maxTokens);
    RStrip(doc[..maxTokens * CHARS_PER_TOKEN]) + "\n"
  }

  /** A stage's document, clipped when it does not fit. */
  function StageDoc(header: seq<string>, history: History, maxTokens: nat): string {
    var full := RenderProfile(header, history);
    if EstimateTokens(full) <= maxTokens then full else Clip(full, maxTokens)
  }

  /** The document of the first stage that fits, or the last stage clipped; over the bound by a token at most. */
  method SynthesizeProfileDoc(header: seq<string>, workHistory: History, maxTokens: nat) returns (doc: string)
    ensures exists n: nat :: IsFirstFit(header, workHistory, maxTokens, n)
                             && doc == StageDoc(header, AfterTrims(workHistory, n), maxTokens)
    ensures EstimateTokens(doc) <= maxTokens + 1
  {
    var history := workHistory;
    ghost var n := 0;
    doc := RenderProfile(header, history);
    while EstimateTokens(doc) > maxTokens && |history| > 1
      invariant ChainAt(header, workHistory, maxTokens, n, history) && doc == RenderProfile(header, history)
      decreases |history| + Bullets(history)
    {
      TrimShrinks(history);
      ChainStep(header, workHistory, maxTokens, n, history);
      if history[0].bullets != [] {
        history := PopBullet(history);
      } else {
        history := history[1..];
      }
      n := n + 1;
      doc := RenderProfile(header, history);
    }
    while EstimateTokens(doc) > maxTokens && history != [] && history[0].bullets != []
      invariant EstimateTokens(doc) > maxTokens ==> |history| <= 1
      invariant ChainAt(header, workHistory, maxTokens, n, history) && doc == RenderProfile(header, history)
      decreases |history| + Bullets(history)
    {
      TrimShrinks(history);
      ChainStep(header, workHistory, maxTokens, n, history);
      history := PopBullet(history);
      n := n + 1;
      doc := RenderProfile(header, history);
    }
    ChainEnds(header, workHistory, maxTokens, n, history);
    if EstimateTokens(doc) > maxTokens {
      ClipIsShort(doc, maxTokens);
      doc := Clip(doc, maxTokens);
    }
  }

  /** The n-th stage has been reached, and no earlier one fits. */
  ghost predicate ChainAt(header: seq<string>, full: History, maxTokens: nat, n: nat, history: History) {
    && history == AfterTrims(full, n)
    && (forall m :: 0 <= m < n ==> !FitsIn(header, AfterTrims(full, m), maxTokens) && !Bare(AfterTrims(full, m)))
  }

  lemma ChainStep(header: seq<string>, full: History, maxTokens: nat, n: nat, history: History)
    requires ChainAt(header, full, maxTokens, n, history) && !Bare(history) && !FitsIn(header, history, maxTokens)
    ensures ChainAt(header, full, maxTokens, n + 1, Trim(history))
  {
  }

  lemma ChainEnds(header: seq<string>, full: History, maxTokens: nat, n: nat, history: History)
    requires ChainAt(header, full, maxTokens, n, history) && (FitsIn(header, history, maxTokens) || Bare(history))
    ensures IsFirstFit(header, full, maxTokens, n) && history == AfterTrims(full, n)
  {
  }

  /** There is one first fit. */
  lemma FirstFitUnique(header: seq<string>, history: History, maxTokens: nat, n: nat, m: nat)
    requires IsFirstFit(header, history, maxTokens, n) && IsFirstFit(header, history, maxTokens, m)
    ensures n == m
  {
  }

  // ---------------------------------------------------------------- the clipped document

  /** A clipped document has at most four characters a token and the final line break. */
  lemma ClipIsShort(doc: string, maxTokens: nat)
    requires EstimateTokens(doc) > maxTokens
    ensures |Clip(doc, maxTokens)| <= maxTokens * CHARS_PER_TOKEN + 1
    ensures EstimateTokens(Clip(doc, maxTokens)) <= maxTokens + 1
  {
    TokensBoundChars(doc, maxTokens);
    var k := RStripSplits(doc[..maxTokens * CHARS_PER_TOKEN]);
    TokensBoundChars(Clip(doc, maxTokens), maxTokens + 1);
  }

  /**
   The clip does not always reach the bound: it does exactly when the last character it kept was a space,
   which stripping then makes room with for the final line break.
   */
  lemma ClipWithinBoundIff(doc: string, maxTokens: nat)
    requires EstimateTokens(doc) > maxTokens
    ensures maxTokens * CHARS_PER_TOKEN < |doc|
    ensures EstimateTokens(Clip(doc, maxTokens)) <= maxTokens
            <==> maxTokens > 0 && IsSpace(doc[maxTokens * CHARS_PER_TOKEN - 1])
  {
    TokensBoundChars(doc, maxTokens);
    var clipped := doc[..maxTokens * CHARS_PER_TOKEN];
    var k := RStripSplits(clipped);
    TokensBoundChars(Clip(doc, maxTokens), maxTokens);
    if maxTokens > 0 {
      assert clipped[|clipped| - 1] == doc[maxTokens * CHARS_PER_TOKEN - 1];
      assert k == |clipped| <==> !IsSpace(clipped[|clipped| - 1]);
    }
  }

  /** A summary of letters long enough to be clipped gives a document over the bound. */
  lemma ClippedOverBound()
    ensures exists doc: string :: EstimateTokens(doc) > 1 && EstimateTokens(Clip(doc, 1)) > 1
  {
    var doc := "aaaaa";
    TokensBoundChars(doc, 1);
    ClipWithinBoundIff(doc, 1);
    assert doc[3] == 'a';
  }
}
