/**
 Stage 1 of verification (app/verify/deterministic.py), and what it says of a resume read back from the
 printed work history and of one with a planted fabrication (app/evals/fabrication.py).
 */
module Groundedness {
  import opened Labels
  import opened Text
  import opened WorkHistory
  import opened Wrappers

  const GOOGLE := "Google"

  datatype Code = UnknownEmployer | UnknownTitle | UnknownDateRange | FabricatedNumber | OutOfSetSkill

  /**
   The regular expressions and the linker, as parameters: dropping a company suffix, finding a year,
   cutting a date range, the phrases after "at", the numbers of a text, and the skills of a span and of a text.
   */
  datatype Checker = Checker(alphabet: Alphabet, dropSuffix: string -> string, year: string -> Option<string>,
                             dateParts: string -> seq<string>, employerPhrases: string -> seq<string>,
                             numbers: string -> set<string>, linkSpan: string -> set<string>,
                             scan: string -> set<string>)

  function NormalName(k: Checker, raw: string): string {
    Normalize(k.alphabet, raw)
  }

  function NormalEmployer(k: Checker, raw: string): string {
    k.dropSuffix(Normalize(k.alphabet, raw))
  }

  function SourceEmployers(k: Checker, history: History): set<string> {
    set r | r in history && r.employer != "" :: NormalEmployer(k, r.employer)
  }

  function SourceTitles(k: Checker, history: History): set<string> {
    set r | r in history && r.title != "" :: NormalName(k, r.title)
  }

  /** A non-empty date, normalized, and its year. */
  function DateTokens(k: Checker, raw: string): set<string> {
    if raw == "" then {}
    else
      var year := k.year(raw);
      {NormalName(k, raw)} + (if year.Some? && year.value != "" then {year.value} else {})
  }

  function RoleDates(k: Checker, role: Role): set<string> {
    var start, endRaw := Strip(role.start), Strip(role.end);
    var current := role.isCurrent || endRaw == "";
    var end := if current then "present" else endRaw;
    DateTokens(k, start) + DateTokens(k, endRaw) + DateTokens(k, end)
    + (if current then {"present", "current", "now"} else {})
    + {NormalName(k, start + " " + EN_DASH + " " + end), NormalName(k, start + "-" + end),
       NormalName(k, start + " to " + end)}
  }

  function SourceDates(k: Checker, history: History): set<string> {
    if history == [] then {}
    else SourceDates(k, history[..|history| - 1]) + RoleDates(k, history[|history| - 1])
  }

  predicate DateInSource(k: Checker, raw: string, source: set<string>) {
    var text := NormalName(k, raw);
    var year := k.year(raw);
    var parts := k.dateParts(text);
    || text in source
    || (year.Some? && year.value != "" && year.value in source)
    || (parts != [] && forall p | p in parts :: p == "" || p in source)
  }

  function TextsOfKind(claims: seq<Claim>, kind: ClaimKind): seq<string> {
    if claims == [] then []
    else
      var last := claims[|claims| - 1];
      TextsOfKind(claims[..|claims| - 1], kind) + (if last.kind == kind && last.text != "" then [last.text] else [])
  }

  lemma {:induction false} TextsOfKindMembers(claims: seq<Claim>, kind: ClaimKind)
    ensures forall x :: x in TextsOfKind(claims, kind) <==>
              x != "" && exists c :: c in claims && c.kind == kind && c.text == x
  {
    if claims != [] {
      var front, last := claims[..|claims| - 1], claims[|claims| - 1];
      TextsOfKindMembers(front, kind);
      assert claims == front + [last];
      assert last in claims && forall c :: c in front ==> c in claims;
    }
  }

  /** The phrases of the document that name no source employer: used only when nothing was claimed. */
  function StrayEmployers(k: Checker, doc: string, source: set<string>): set<string> {
    set name | name in k.employerPhrases(doc) && name != "" && NormalEmployer(k, name) !in source
  }

  predicate AnyUnknownEmployer(k: Checker, resume: Resume, history: History) {
    var source := SourceEmployers(k, history);
    var claimed := resume.employers + TextsOfKind(resume.claims, Employer);
    if claimed != [] then exists e | e in claimed :: NormalEmployer(k, e) !in source
    else StrayEmployers(k, resume.doc, source) != {}
  }

  predicate AnyUnknownTitle(k: Checker, resume: Resume, history: History) {
    exists t | t in resume.titles + TextsOfKind(resume.claims, Title) :: NormalName(k, t) !in SourceTitles(k, history)
  }

  predicate AnyUnknownRange(k: Checker, resume: Resume, history: History) {
    exists d | d in resume.dateRanges :: !DateInSource(k, d, SourceDates(k, history))
  }

  predicate AnyUnknownDateClaim(k: Checker, resume: Resume, history: History) {
    exists c | c in resume.claims :: c.kind == DateRange && !DateInSource(k, c.text, SourceDates(k, history))
  }

  /** The source text whose numbers are allowed. */
  function PresentText(role: Role): seq<string> {
    (if role.employer != "" then [role.employer] else []) + (if role.title != "" then [role.title] else [])
    + (if role.start != "" then [role.start] else []) + (if role.end != "" then [role.end] else [])
    + (if role.location != "" then [role.location] else []) + (if role.isCurrent then ["present"] else [])
  }

  function BulletTexts(bullets: seq<Bullet>): seq<string> {
    if bullets == [] then []
    else
      BulletTexts(bullets[..|bullets| - 1])
      + (if bullets[|bullets| - 1].text != "" then [bullets[|bullets| - 1].text] else [])
  }

  function FlattenParts(history: History): seq<string> {
    if history == [] then []
    else
      var role := history[|history| - 1];
      FlattenParts(history[..|history| - 1]) + PresentText(role) + BulletTexts(role.bullets)
  }

  function Flatten(history: History): string {
    Join("\n", FlattenParts(history))
  }

  function OutputSkills(k: Checker, resume: Resume): set<string> {
    (set s | s in resume.claimedSkills) + ClaimSkills(k, resume.claims) + k.scan(resume.doc)
  }

  function ClaimSkills(k: Checker, claims: seq<Claim>): set<string> {
    if claims == [] then {}
    else
      var last := claims[|claims| - 1];
      ClaimSkills(k, claims[..|claims| - 1])
      + (if last.skillId != "" then {last.skillId} else {})
      + (if last.kind == Skill && last.text != "" then k.linkSpan(last.text) else {})
  }

  /** A number of the document that the source does not have. */
  predicate AnyFabricatedNumber(k: Checker, resume: Resume, history: History) {
    !(k.numbers(resume.doc) <= k.numbers(Flatten(history)))
  }

  predicate AnySkillOutOfSet(k: Checker, resume: Resume, userSkills: set<string>) {
    !(OutputSkills(k, resume) <= userSkills)
  }

  /** The failures in order. */
  function FailureList(employer: bool, title: bool, range: bool, dateClaim: bool, number: bool,
                       skill: bool): seq<Code> {
    (if employer then [UnknownEmployer] else []) + (if title then [UnknownTitle] else [])
    + (if range then [UnknownDateRange] else []) + (if dateClaim then [UnknownDateRange] else [])
    + (if number then [FabricatedNumber] else []) + (if skill then [OutOfSetSkill] else [])
  }

  function Failures(k: Checker, resume: Resume, history: History, userSkills: set<string>): seq<Code> {
    FailureList(AnyUnknownEmployer(k, resume, history), AnyUnknownTitle(k, resume, history),
                AnyUnknownRange(k, resume, history), AnyUnknownDateClaim(k, resume, history),
                AnyFabricatedNumber(k, resume, history), AnySkillOutOfSet(k, resume, userSkills))
  }

  // ---------------------------------------------------------------- the loops

  /** The first item outside the known set stops the search. */
  method FindUnknown(items: seq<string>, normal: string -> string, known: set<string>) returns (found: bool)
    ensures found <==> exists x | x in items :: normal(x) !in known
  {
    for i := 0 to |items|
      invariant forall x :: x in items[..i] ==> normal(x) in known
    {
      assert items[..i + 1] == items[..i] + [items[i]];
      if normal(items[i]) !in known {
        return true;
      }
    }
    assert items[..|items|] == items;
    return false;
  }

  method FindUnknownRange(k: Checker, ranges: seq<string>, source: set<string>) returns (found: bool)
    ensures found <==> exists d | d in ranges :: !DateInSource(k, d, source)
  {
    for i := 0 to |ranges|
      invariant forall d :: d in ranges[..i] ==> DateInSource(k, d, source)
    {
      assert ranges[..i + 1] == ranges[..i] + [ranges[i]];
      if !DateInSource(k, ranges[i], source) {
        return true;
      }
    }
    assert ranges[..|ranges|] == ranges;
    return false;
  }

  method FindUnknownDateClaim(k: Checker, claims: seq<Claim>, source: set<string>) returns (found: bool)
    ensures found <==> exists c | c in claims :: c.kind == DateRange && !DateInSource(k, c.text, source)
  {
    for i := 0 to |claims|
      invariant forall c :: c in claims[..i] ==> !(c.kind == DateRange && !DateInSource(k, c.text, source))
    {
      assert claims[..i + 1] == claims[..i] + [claims[i]];
      if claims[i].kind == DateRange && !DateInSource(k, claims[i].text, source) {
        return true;
      }
    }
    assert claims[..|claims|] == claims;
    return false;
  }

  method CollectSourceDates(k: Checker, history: History) returns (tokens: set<string>)
    ensures tokens == SourceDates(k, history)
  {
    tokens := {};
    for i := 0 to |history|
      invariant tokens == SourceDates(k, history[..i])
    {
      assert history[..i + 1][..i] == history[..i];
      tokens := tokens + RoleDates(k, history[i]);
    }
    assert history[..|history|] == history;
  }

  method CollectClaimSkills(k: Checker, claims: seq<Claim>) returns (skills: set<string>)
    ensures skills == ClaimSkills(k, claims)
  {
    skills := {};
    for i := 0 to |claims|
      invariant skills == ClaimSkills(k, claims[..i])
    {
      assert claims[..i + 1][..i] == claims[..i];
      if claims[i].skillId != "" {
        skills := skills + {claims[i].skillId};
      }
      if claims[i].kind == Skill && claims[i].text != "" {
        skills := skills + k.linkSpan(claims[i].text);
      }
    }
    assert claims[..|claims|] == claims;
  }

  method FlattenWorkHistoryText(history: History) returns (text: string)
    ensures text == Flatten(history)
  {
    var parts: seq<string> := [];
    for i := 0 to |history|
      invariant parts == FlattenParts(history[..i])
    {
      var role := history[i];
      assert history[..i + 1][..i] == history[..i];
      ghost var before := parts + PresentText(role);
      parts := parts + PresentText(role);
      for j := 0 to |role.bullets|
        invariant parts == before + BulletTexts(role.bullets[..j])
      {
        assert role.bullets[..j + 1][..j] == role.bullets[..j];
        if role.bullets[j].text != "" {
          parts := parts + [role.bullets[j].text];
        }
      }
      assert role.bullets[..|role.bullets|] == role.bullets;
    }
    assert history[..|history|] == history;
    text := Join("\n", parts);
  }

  method CheckEmployers(k: Checker, resume: Resume, history: History) returns (failed: bool)
    ensures failed <==> AnyUnknownEmployer(k, resume, history)
  {
    var source := SourceEmployers(k, history);
    var claimed := resume.employers + TextsOfKind(resume.claims, Employer);
    if claimed != [] {
      failed := FindUnknown(claimed, e => NormalEmployer(k, e), source);
    } else {
      failed := StrayEmployers(k, resume.doc, source) != {};
    }
  }

  method CheckTitles(k: Checker, resume: Resume, history: History) returns (failed: bool)
    ensures failed <==> AnyUnknownTitle(k, resume, history)
  {
    failed :=
      FindUnknown(resume.titles + TextsOfKind(resume.claims, Title), t => NormalName(k, t), SourceTitles(k, history));
  }

  method CheckDates(k: Checker, resume: Resume, history: History) returns (range: bool, dateClaim: bool)
    ensures range <==> AnyUnknownRange(k, resume, history)
    ensures dateClaim <==> AnyUnknownDateClaim(k, resume, history)
  {
    var source := CollectSourceDates(k, history);
    range := FindUnknownRange(k, resume.dateRanges, source);
    dateClaim := FindUnknownDateClaim(k, resume.claims, source);
  }

  lemma NothingLeftOver(a: set<string>, b: set<string>)
    ensures a - b == {} <==> a <= b
  {
    if a - b == {} {
      forall x | x in a
        ensures x in b
      {
        assert x !in a - b;
      }
    }
  }

  method CheckNumbers(k: Checker, resume: Resume, history: History) returns (failed: bool)
    ensures failed <==> AnyFabricatedNumber(k, resume, history)
  {
    var sourceText := FlattenWorkHistoryText(history);
    failed := k.numbers(resume.doc) - k.numbers(sourceText) != {};
    NothingLeftOver(k.numbers(resume.doc), k.numbers(sourceText));
  }

  method CheckSkills(k: Checker, resume: Resume, userSkills: set<string>) returns (failed: bool)
    ensures failed <==> AnySkillOutOfSet(k, resume, userSkills)
  {
    var claimSkills := CollectClaimSkills(k, resume.claims);
    var output := (set s | s in resume.claimedSkills) + claimSkills + k.scan(resume.doc);
    failed := output - userSkills != {};
    NothingLeftOver(output, userSkills);
  }

  method RunDeterministicChecks(k: Checker, resume: Resume, history: History, userSkills: set<string>)
    returns (failures: seq<Code>)
    ensures failures == Failures(k, resume, history, userSkills)
  {
    var employer := CheckEmployers(k, resume, history);
    failures := if employer then [UnknownEmployer] else [];
    var title := CheckTitles(k, resume, history);
    failures := failures + (if title then [UnknownTitle] else []);
    var range, dateClaim := CheckDates(k, resume, history);
    failures := failures + (if range then [UnknownDateRange] else []);
    failures := failures + (if dateClaim then [UnknownDateRange] else []);
    var number := CheckNumbers(k, resume, history);
    failures := failures + (if number then [FabricatedNumber] else []);
    var skill := CheckSkills(k, resume, userSkills);
    failures := failures + (if skill then [OutOfSetSkill] else []);
  }

  /** Which failures a resume has. */
  lemma FailureCodes(k: Checker, resume: Resume, history: History, userSkills: set<string>)
    ensures var failures := Failures(k, resume, history, userSkills);
            && (UnknownEmployer in failures <==> AnyUnknownEmployer(k, resume, history))
            && (UnknownTitle in failures <==> AnyUnknownTitle(k, resume, history))
            && (UnknownDateRange in failures <==>
                  AnyUnknownRange(k, resume, history) || AnyUnknownDateClaim(k, resume, history))
            && (FabricatedNumber in failures <==> AnyFabricatedNumber(k, resume, history))
            && (OutOfSetSkill in failures <==> AnySkillOutOfSet(k, resume, userSkills))
  {
    ListMembers(AnyUnknownEmployer(k, resume, history), AnyUnknownTitle(k, resume, history),
                AnyUnknownRange(k, resume, history), AnyUnknownDateClaim(k, resume, history),
                AnyFabricatedNumber(k, resume, history), AnySkillOutOfSet(k, resume, userSkills));
  }

  lemma ListMembers(employer: bool, title: bool, range: bool, dateClaim: bool, number: bool, skill: bool)
    ensures var failures := FailureList(employer, title, range, dateClaim, number, skill);
            && (UnknownEmployer in failures <==> employer) && (UnknownTitle in failures <==> title)
            && (UnknownDateRange in failures <==> range || dateClaim)
            && (FabricatedNumber in failures <==> number) && (OutOfSetSkill in failures <==> skill)
  {
  }

  // ---------------------------------------------------------------- a resume read back is grounded

  /**
   What the parameters must satisfy: folding respects spaces, a dash is no token, and cutting nothing
   gives one empty part.
   */
  ghost predicate Reasonable(k: Checker) {
    && SpacesSeparate(k.alphabet)
    && Tokens(k.alphabet, EN_DASH) == []
    && k.dateParts("") == [""]
  }

  ghost predicate FromEmployer(history: History, x: string) {
    x != "" && exists r :: r in history && x == Strip(r.employer)
  }

  ghost predicate FromTitle(history: History, x: string) {
    x != "" && exists r :: r in history && x == Strip(r.title)
  }

  ghost predicate FromDates(history: History, x: string) {
    exists r :: r in history && x == Strip(DateText(r))
  }

  ghost predicate ClaimFrom(history: History, c: Claim) {
    match c.kind
    case Employer => FromEmployer(history, c.text)
    case Title => FromTitle(history, c.text)
    case DateRange => FromDates(history, c.text)
    case Accomplishment => true
    case _ => false
  }

  /** Everything collected comes from a role of the history. */
  ghost predicate Grounded(history: History, st: Collected) {
    && (forall x :: x in st.employers ==> FromEmployer(history, x))
    && (forall x :: x in st.titles ==> FromTitle(history, x))
    && (forall x :: x in st.dateRanges ==> FromDates(history, x))
    && (forall c :: c in st.claims ==> ClaimFrom(history, c))
  }

  lemma {:induction false} BulletsStayGrounded(history: History, st: Collected, index: nat, bullets: seq<Bullet>)
    requires Grounded(history, st)
    ensures Grounded(history, AddBullets(st, index, bullets))
  {
    if bullets != [] {
      BulletsStayGrounded(history, st, index, bullets[..|bullets| - 1]);
    }
  }

  lemma EmployerStaysGrounded(history: History, st: Collected, x: string)
    requires Grounded(history, st) && (x != "" ==> FromEmployer(history, x))
    ensures Grounded(history, TakeEmployer(st, x))
  {
  }

  lemma TitleStaysGrounded(history: History, st: Collected, x: string)
    requires Grounded(history, st) && (x != "" ==> FromTitle(history, x))
    ensures Grounded(history, TakeTitle(st, x))
  {
  }

  lemma DatesStayGrounded(history: History, st: Collected, x: string)
    requires Grounded(history, st) && FromDates(history, x)
    ensures Grounded(history, TakeDates(st, x))
  {
  }

  lemma RoleStaysGrounded(history: History, st: Collected, index: nat, role: Role)
    requires Grounded(history, st) && role in history
    ensures Grounded(history, AddRole(st, index, role))
  {
    var s0 := st.(currentSpan := RoleSpan(index));
    var s1 := TakeEmployer(s0, Strip(role.employer));
    EmployerStaysGrounded(history, s0, Strip(role.employer));
    var s2 := TakeTitle(s1, Strip(role.title));
    TitleStaysGrounded(history, s1, Strip(role.title));
    DatesStayGrounded(history, s2, Strip(DateText(role)));
    BulletsStayGrounded(history, TakeDates(s2, Strip(DateText(role))), index, role.bullets);
  }

  ghost predicate NoEmployer(history: History) {
    forall r :: r in history ==> Strip(r.employer) == ""
  }

  lemma {:induction false} PartIsGrounded(history: History, part: History)
    requires forall r :: r in part ==> r in history
    ensures Grounded(history, AddHistory(NOTHING, part))
  {
    if part != [] {
      var before, last := part[..|part| - 1], part[|part| - 1];
      PartIsGrounded(history, before);
      RoleStaysGrounded(history, AddHistory(NOTHING, before), |part| - 1, last);
    }
  }

  lemma BulletsAddNoEmployer(st: Collected, index: nat, bullets: seq<Bullet>)
    ensures AddBullets(st, index, bullets).employers == st.employers
  {
  }

  lemma RoleAddsEmployer(st: Collected, index: nat, role: Role)
    ensures AddRole(st, index, role).employers
            == st.employers + if Strip(role.employer) == "" then [] else [Strip(role.employer)]
  {
    var named := TakeTitle(TakeEmployer(st.(currentSpan := RoleSpan(index)), Strip(role.employer)), Strip(role.title));
    BulletsAddNoEmployer(TakeDates(named, Strip(DateText(role))), index, role.bullets);
  }

  lemma {:induction false} EmployersOfPart(part: History)
    ensures AddHistory(NOTHING, part).employers == [] <==> NoEmployer(part)
  {
    if part != [] {
      var before, last := part[..|part| - 1], part[|part| - 1];
      assert NoEmployer(part) <==> NoEmployer(before) && Strip(last.employer) == "" by {
        assert part == before + [last];
      }
      EmployersOfPart(before);
      RoleAddsEmployer(AddHistory(NOTHING, before), |part| - 1, last);
    }
  }

  lemma HistoryIsGrounded(history: History)
    ensures Grounded(history, AddHistory(NOTHING, history))
    ensures AddHistory(NOTHING, history).employers == [] <==> NoEmployer(history)
  {
    PartIsGrounded(history, history);
    EmployersOfPart(history);
  }

  lemma EmployerKnown(k: Checker, history: History, x: string)
    requires Reasonable(k) && FromEmployer(history, x)
    ensures NormalEmployer(k, x) in SourceEmployers(k, history)
  {
    var r :| r in history && x == Strip(r.employer);
    NormalizeOfStrip(k.alphabet, r.employer);
    assert r.employer != "";
  }

  lemma TitleKnown(k: Checker, history: History, x: string)
    requires Reasonable(k) && FromTitle(history, x)
    ensures NormalName(k, x) in SourceTitles(k, history)
  {
    var r :| r in history && x == Strip(r.title);
    NormalizeOfStrip(k.alphabet, r.title);
    assert r.title != "";
  }

  lemma {:induction false} RoleDatesIncluded(k: Checker, history: History, r: Role)
    requires r in history
    ensures RoleDates(k, r) <= SourceDates(k, history)
  {
    var front, last := history[..|history| - 1], history[|history| - 1];
    assert history == front + [last];
    if r != last {
      RoleDatesIncluded(k, front, r);
    }
  }

  /** A start date followed by a bare dash normalizes like the start date. */
  lemma DashVanishes(a: Alphabet, start: string, dash: string)
    requires SpacesSeparate(a) && Tokens(a, dash) == []
    ensures Normalize(a, start + " " + dash + " " + "") == Normalize(a, start)
  {
    DashTokens(a, start, dash);
    NormalizeJoinsTokens(a, start);
    NormalizeJoinsTokens(a, start + " " + dash + " " + "");
  }

  lemma DashTokens(a: Alphabet, start: string, dash: string)
    requires SpacesSeparate(a) && Tokens(a, dash) == []
    ensures Tokens(a, start + " " + dash + " " + "") == Tokens(a, start)
  {
    SpaceSplits(a, start, ' ', dash);
    SpaceSplits(a, start + " " + dash, ' ', "");
  }

  lemma WholeRangeKnown(k: Checker, r: Role)
    requires r.isCurrent || r.end == "" || Strip(r.end) != ""
    ensures NormalName(k, DateText(r)) in RoleDates(k, r)
  {
  }

  lemma OpenRangeKnown(k: Checker, r: Role, source: set<string>)
    requires Reasonable(k) && RoleDates(k, r) <= source
    requires !r.isCurrent && r.end != "" && Strip(r.end) == ""
    ensures DateInSource(k, Strip(DateText(r)), source)
  {
    var start := Strip(r.start);
    DashVanishes(k.alphabet, start, EN_DASH);
    NormalizeOfStrip(k.alphabet, DateText(r));
    assert NormalName(k, Strip(DateText(r))) == NormalName(k, start);
    if start != "" {
      assert NormalName(k, start) in DateTokens(k, start);
    } else {
      NormalizeJoinsTokens(k.alphabet, "");
      assert NormalName(k, start) == "";
    }
  }

  lemma DatesKnown(k: Checker, history: History, x: string)
    requires Reasonable(k) && FromDates(history, x)
    ensures DateInSource(k, x, SourceDates(k, history))
  {
    var r :| r in history && x == Strip(DateText(r));
    RoleDatesIncluded(k, history, r);
    if r.isCurrent || r.end == "" || Strip(r.end) != "" {
      NormalizeOfStrip(k.alphabet, DateText(r));
      WholeRangeKnown(k, r);
    } else {
      OpenRangeKnown(k, r, SourceDates(k, history));
    }
  }

  /**
   A resume read back from the printed history raises no title or date failure. It raises an employer
   failure in one case only: no role has an employer, and the document has a phrase the fallback takes for one.
   */
  lemma ReadBackIsGrounded(k: Checker, history: History, userSkills: set<string>)
    requires Reasonable(k)
    ensures var resume := ToResume(AddHistory(NOTHING, history));
            var failures := Failures(k, resume, history, userSkills);
            && UnknownTitle !in failures && UnknownDateRange !in failures
            && (UnknownEmployer in failures
                <==> NoEmployer(history) && StrayEmployers(k, resume.doc, SourceEmployers(k, history)) != {})
  {
    var st := AddHistory(NOTHING, history);
    var resume := ToResume(st);
    HistoryIsGrounded(history);
    GroundedRaisesNothing(k, history, st, resume);
    EmployersEmpty(history, st);
    FailureCodes(k, resume, history, userSkills);
  }

  lemma EmployersEmpty(history: History, st: Collected)
    requires Grounded(history, st)
    requires st.employers == [] <==> NoEmployer(history)
    ensures st.employers + TextsOfKind(st.claims, Employer) == [] <==> NoEmployer(history)
  {
    var texts := TextsOfKind(st.claims, Employer);
    TextsOfKindMembers(st.claims, Employer);
    forall x | x in texts
      ensures FromEmployer(history, x)
    {
    }
    assert texts != [] ==> texts[0] in texts;
  }

  lemma GroundedRaisesNothing(k: Checker, history: History, st: Collected, resume: Resume)
    requires Reasonable(k) && Grounded(history, st)
    requires resume.employers == st.employers && resume.titles == st.titles
    requires resume.dateRanges == st.dateRanges && resume.claims == st.claims
    ensures forall e :: e in resume.employers + TextsOfKind(resume.claims, Employer) ==>
              NormalEmployer(k, e) in SourceEmployers(k, history)
    ensures !AnyUnknownTitle(k, resume, history)
    ensures !AnyUnknownRange(k, resume, history) && !AnyUnknownDateClaim(k, resume, history)
  {
    TextsOfKindMembers(resume.claims, Employer);
    TextsOfKindMembers(resume.claims, Title);
    forall e | e in resume.employers + TextsOfKind(resume.claims, Employer)
      ensures NormalEmployer(k, e) in SourceEmployers(k, history)
    {
      EmployerKnown(k, history, e);
    }
    forall t | t in resume.titles + TextsOfKind(resume.claims, Title)
      ensures NormalName(k, t) in SourceTitles(k, history)
    {
      TitleKnown(k, history, t);
    }
    forall d | d in resume.dateRanges
      ensures DateInSource(k, d, SourceDates(k, history))
    {
      DatesKnown(k, history, d);
    }
    forall c | c in resume.claims && c.kind == DateRange
      ensures DateInSource(k, c.text, SourceDates(k, history))
    {
      DatesKnown(k, history, c.text);
    }
  }

  /** No employer is a source employer, so any phrase the fallback finds is stray. */
  lemma NoEmployerFlagged(k: Checker, history: History, userSkills: set<string>, phrase: string)
    requires Reasonable(k) && (forall r :: r in history ==> r.employer == "") && phrase != ""
    requires phrase in k.employerPhrases(ToResume(AddHistory(NOTHING, history)).doc)
    ensures UnknownEmployer in Failures(k, ToResume(AddHistory(NOTHING, history)), history, userSkills)
  {
    ReadBackIsGrounded(k, history, userSkills);
    assert NoEmployer(history);
    assert SourceEmployers(k, history) == {};
    assert phrase in StrayEmployers(k, ToResume(AddHistory(NOTHING, history)).doc, SourceEmployers(k, history));
  }

  /** A role with no more than a title and one bullet. */
  function BareRole(title: string, text: string): Role {
    Role("", title, "", "", false, "", [Bullet("", text)])
  }

  /** The document of that role: a heading without a name, the title and the bullet. */
  function BareDocument(head: string, title: string, text: string): string {
    head + "\n" + "\n" + "## " + title + "\n" + "- " + text + "\n"
  }

  lemma OneBullet(st: Collected, index: nat, b: Bullet)
    ensures AddBullets(st, index, [b]) == TakeBullet(st, SpanOf(index, 0, b), Strip(b.text))
  {
    assert [b][..0] == [];
  }

  lemma BareBody(title: string, text: string)
    requires title != "" && Trimmed(title) && text != "" && Trimmed(text)
    ensures var st := AddHistory(NOTHING, [BareRole(title, text)]);
            st.employers == [] && st.body == ["## " + title, "- " + text]
  {
    var role := BareRole(title, text);
    TrimmedStrip(title);
    TrimmedStrip(text);
    var titled := TakeTitle(NOTHING.(currentSpan := RoleSpan(0)), title);
    var dated := TakeDates(titled, Strip(DateText(role)));
    OneBullet(dated, 0, role.bullets[0]);
    assert [role][..0] == [];
    assert AddHistory(NOTHING, [role]) == AddRole(NOTHING, 0, role);
  }

  lemma JoinFour(sep: string, a: string, b: string, c: string, d: string)
    ensures Join(sep, [a, b, c, d]) == a + sep + b + sep + c + sep + d
  {
    assert [a, b, c, d][1..] == [b, c, d] && [b, c, d][1..] == [c, d] && [c, d][1..] == [d];
    assert Join(sep, [c, d]) == c + sep + d;
    assert Join(sep, [b, c, d]) == b + sep + (c + sep + d);
  }

  lemma BareDocumentPrinted(st: Collected, title: string, text: string, head: string)
    requires st.employers == [] && st.body == ["## " + title, "- " + text] && head == "# Resume"
    requires text != "" && Trimmed(text)
    ensures ToResume(st).doc == BareDocument(head, title, text)
  {
    var printed := Join("\n", DocLines(st));
    assert DocLines(st) == [head, "", "## " + title, "- " + text];
    JoinFour("\n", head, "", "## " + title, "- " + text);
    assert printed + "\n" == BareDocument(head, title, text);
    assert printed[|printed| - 1] == text[|text| - 1];
    TrimmedStrip(printed);
  }

  /** The one case happens: a role without an employer whose bullet says "at Google", if the finder takes that. */
  lemma GroundedYetFlagged(k: Checker, userSkills: set<string>)
    requires Reasonable(k) && GOOGLE in k.employerPhrases(BareDocument("# Resume", "Engineer", "Worked at Google"))
    ensures var history := [BareRole("Engineer", "Worked at Google")];
            UnknownEmployer in Failures(k, ToResume(AddHistory(NOTHING, history)), history, userSkills)
  {
    var role := BareRole("Engineer", "Worked at Google");
    BareBody(role.title, role.bullets[0].text);
    BareDocumentPrinted(AddHistory(NOTHING, [role]), role.title, role.bullets[0].text, "# Resume");
    NoEmployerFlagged(k, [role], userSkills, GOOGLE);
  }

  /** Print, read back, check. */
  method GroundedEvaluation(k: Checker, history: History, userSkills: set<string>)
    returns (resume: Resume, failures: seq<Code>)
    requires Reasonable(k) && forall r :: r in history ==> Printable(r)
    ensures resume == ToResume(AddHistory(NOTHING, history))
    ensures failures == Failures(k, resume, history, userSkills)
    ensures UnknownTitle !in failures && UnknownDateRange !in failures
    ensures (exists r :: r in history && Strip(r.employer) != "") ==> UnknownEmployer !in failures
  {
    var block := RenderWorkHistoryBlock(history);
    resume := ResumeFromCachePrefix(block);
    RoundTrip(history);
    failures := RunDeterministicChecks(k, resume, history, userSkills);
    ReadBackIsGrounded(k, history, userSkills);
  }

  // ---------------------------------------------------------------- planted fabrications

  datatype Temptation =
    | MissingSkill | AdjacentNotEquivalent | YearScopeInflation | SeniorityInflation | EmployerTitleDrift

  const STAFF_ENGINEER := "Staff Engineer"
  const RUST := "seed:rust"
  const CLOUD_FORMATION := "seed:cloudformation"

  function Plant(temptation: Temptation): Resume {
    match temptation
    case MissingSkill =>
      Resume("Invented 4 years of Rust in production.", [], [], [], [Claim("4 years of Rust", [], Skill, RUST)], [RUST])
    case AdjacentNotEquivalent =>
      Resume("Shipped production CloudFormation stacks.", [], [], [],
             [Claim("CloudFormation", [], Skill, CLOUD_FORMATION)], [CLOUD_FORMATION])
    case YearScopeInflation =>
      Resume("15 years of backend experience leading a team of 50.", [], [], [],
             [Claim("15 years", [], Number, ""), Claim("team of 50", [], Number, "")], [])
    case SeniorityInflation =>
      Resume("Staff Engineer who led the engineering organization.", [], [STAFF_ENGINEER], [],
             [Claim(STAFF_ENGINEER, [], Title, "")], [])
    case EmployerTitleDrift =>
      Resume("Staff Engineer at Google.", [GOOGLE], [STAFF_ENGINEER], [],
             [Claim(GOOGLE, [], Employer, ""), Claim(STAFF_ENGINEER, [], Title, "")], [])
  }

  function WithPlant(base: Resume, planted: Resume): Resume {
    Resume(Strip(RStrip(base.doc) + "\n\n" + planted.doc) + "\n", base.employers + planted.employers,
           base.titles + planted.titles, base.dateRanges + planted.dateRanges, base.claims + planted.claims,
           base.claimedSkills + planted.claimedSkills)
  }

  lemma {:induction false} TextsOfKindAppend(a: seq<Claim>, b: seq<Claim>, kind: ClaimKind)
    ensures TextsOfKind(a + b, kind) == TextsOfKind(a, kind) + TextsOfKind(b, kind)
  {
    if b == [] {
      assert a + b == a;
    } else {
      TextsOfKindAppend(a, b[..|b| - 1], kind);
      assert (a + b)[..|a + b| - 1] == a + b[..|b| - 1];
    }
  }

  function ClaimedEmployers(resume: Resume): seq<string> {
    resume.employers + TextsOfKind(resume.claims, Employer)
  }

  function ClaimedTitles(resume: Resume): seq<string> {
    resume.titles + TextsOfKind(resume.claims, Title)
  }

  lemma ClaimedOfPlant(base: Resume, planted: Resume)
    ensures forall e :: e in ClaimedEmployers(WithPlant(base, planted)) <==>
              e in ClaimedEmployers(base) || e in ClaimedEmployers(planted)
    ensures forall t :: t in ClaimedTitles(WithPlant(base, planted)) <==>
              t in ClaimedTitles(base) || t in ClaimedTitles(planted)
  {
    TextsOfKindAppend(base.claims, planted.claims, Employer);
    TextsOfKindAppend(base.claims, planted.claims, Title);
  }

  /**
   An employer planted on a grounded resume is caught exactly when the source has no employer of its
   normalized name.
   */
  lemma PlantedEmployersCaught(k: Checker, history: History, userSkills: set<string>, planted: Resume)
    requires Reasonable(k) && ClaimedEmployers(planted) != []
    ensures var resume := WithPlant(ToResume(AddHistory(NOTHING, history)), planted);
            UnknownEmployer in Failures(k, resume, history, userSkills)
            <==> exists e :: e in ClaimedEmployers(planted) && NormalEmployer(k, e) !in SourceEmployers(k, history)
  {
    var st := AddHistory(NOTHING, history);
    var base := ToResume(st);
    var resume := WithPlant(base, planted);
    HistoryIsGrounded(history);
    GroundedRaisesNothing(k, history, st, base);
    ClaimedOfPlant(base, planted);
    FailureCodes(k, resume, history, userSkills);
    assert ClaimedEmployers(planted)[0] in ClaimedEmployers(resume);
    UnknownAmongClaimed(k, resume, history);
  }

  lemma UnknownAmongClaimed(k: Checker, resume: Resume, history: History)
    requires ClaimedEmployers(resume) != []
    ensures AnyUnknownEmployer(k, resume, history)
            <==> exists e :: e in ClaimedEmployers(resume) && NormalEmployer(k, e) !in SourceEmployers(k, history)
  {
  }

  /** A planted title is caught exactly when the source has no title of its normalized name. */
  lemma PlantedTitlesCaught(k: Checker, history: History, userSkills: set<string>, planted: Resume)
    requires Reasonable(k)
    ensures var resume := WithPlant(ToResume(AddHistory(NOTHING, history)), planted);
            UnknownTitle in Failures(k, resume, history, userSkills)
            <==> exists t :: t in ClaimedTitles(planted) && NormalName(k, t) !in SourceTitles(k, history)
  {
    var st := AddHistory(NOTHING, history);
    var base := ToResume(st);
    var resume := WithPlant(base, planted);
    HistoryIsGrounded(history);
    GroundedRaisesNothing(k, history, st, base);
    ClaimedOfPlant(base, planted);
    FailureCodes(k, resume, history, userSkills);
    assert AnyUnknownTitle(k, resume, history)
      <==> exists t :: t in ClaimedTitles(resume) && NormalName(k, t) !in SourceTitles(k, history);
  }

  /** A planted skill outside the user's set is always caught, whatever it is planted on. */
  lemma PlantedSkillsCaught(k: Checker, base: Resume, history: History, userSkills: set<string>, planted: Resume)
    requires exists s :: s in planted.claimedSkills && s !in userSkills
    ensures OutOfSetSkill in Failures(k, WithPlant(base, planted), history, userSkills)
  {
    var resume := WithPlant(base, planted);
    var s :| s in planted.claimedSkills && s !in userSkills;
    assert s in resume.claimedSkills;
    assert s in OutputSkills(k, resume);
    FailureCodes(k, resume, history, userSkills);
  }

  /** The plants of the suite, each against the check it is meant to trip, and drift against both of its two. */
  lemma SuitePlantsCaught(k: Checker, history: History, userSkills: set<string>)
    requires Reasonable(k)
    ensures var base := ToResume(AddHistory(NOTHING, history));
            && (RUST !in userSkills ==>
                  OutOfSetSkill in Failures(k, WithPlant(base, Plant(MissingSkill)), history, userSkills))
            && (CLOUD_FORMATION !in userSkills ==>
                  OutOfSetSkill in Failures(k, WithPlant(base, Plant(AdjacentNotEquivalent)), history, userSkills))
    ensures var inflated := WithPlant(ToResume(AddHistory(NOTHING, history)), Plant(YearScopeInflation));
            FabricatedNumber in Failures(k, inflated, history, userSkills)
            <==> AnyFabricatedNumber(k, inflated, history)
    ensures forall plant :: plant in {SeniorityInflation, EmployerTitleDrift} ==>
              (UnknownTitle in Failures(k, WithPlant(ToResume(AddHistory(NOTHING, history)), Plant(plant)), history,
                                        userSkills)
               <==> NormalName(k, STAFF_ENGINEER) !in SourceTitles(k, history))
    ensures var drifted := WithPlant(ToResume(AddHistory(NOTHING, history)), Plant(EmployerTitleDrift));
            UnknownEmployer in Failures(k, drifted, history, userSkills)
            <==> NormalEmployer(k, GOOGLE) !in SourceEmployers(k, history)
  {
    var base := ToResume(AddHistory(NOTHING, history));
    PlantClaims();
    PlantedEmployersCaught(k, history, userSkills, Plant(EmployerTitleDrift));
    PlantedTitlesCaught(k, history, userSkills, Plant(EmployerTitleDrift));
    PlantedTitlesCaught(k, history, userSkills, Plant(SeniorityInflation));
    FailureCodes(k, WithPlant(base, Plant(YearScopeInflation)), history, userSkills);
    if RUST !in userSkills {
      PlantedSkillsCaught(k, base, history, userSkills, Plant(MissingSkill));
    }
    if CLOUD_FORMATION !in userSkills {
      PlantedSkillsCaught(k, base, history, userSkills, Plant(AdjacentNotEquivalent));
    }
  }

  lemma PlantClaims()
    ensures ClaimedEmployers(Plant(EmployerTitleDrift)) != []
    ensures forall e :: e in ClaimedEmployers(Plant(EmployerTitleDrift)) <==> e == GOOGLE
    ensures forall t :: t in ClaimedTitles(Plant(EmployerTitleDrift)) <==> t == STAFF_ENGINEER
    ensures forall t :: t in ClaimedTitles(Plant(SeniorityInflation)) <==> t == STAFF_ENGINEER
    ensures RUST in Plant(MissingSkill).claimedSkills && CLOUD_FORMATION in Plant(AdjacentNotEquivalent).claimedSkills
  {
    var drift, seniority := Plant(EmployerTitleDrift), Plant(SeniorityInflation);
    TextsOfKindMembers(drift.claims, Employer);
    TextsOfKindMembers(drift.claims, Title);
    TextsOfKindMembers(seniority.claims, Title);
    assert GOOGLE in drift.employers && STAFF_ENGINEER in drift.titles && STAFF_ENGINEER in seniority.titles;
  }
}
