/**
 When each stage 1 check fails, in terms of the claims, the document and the roles alone, and what a history
 reads back as.
 */
module GroundFacts {
  import opened Groundedness
  import opened Labels
  import opened Text
  import opened WorkHistory
  import opened Wrappers

  // ---------------------------------------------------------------- employers and titles

  ghost predicate ClaimsText(resume: Resume, kind: ClaimKind, x: string) {
    x != "" && exists c :: c in resume.claims && c.kind == kind && c.text == x
  }

  /** Some role has an employer of the same normalized name. */
  ghost predicate HasEmployer(k: Checker, history: History, x: string) {
    exists r :: && r in history && r.employer != ""
                && k.dropSuffix(Normalize(k.alphabet, r.employer)) == k.dropSuffix(Normalize(k.alphabet, x))
  }

  ghost predicate HasTitle(k: Checker, history: History, x: string) {
    exists r :: r in history && r.title != "" && Normalize(k.alphabet, r.title) == Normalize(k.alphabet, x)
  }

  lemma EmployerKnownIff(k: Checker, history: History, x: string)
    ensures NormalEmployer(k, x) in SourceEmployers(k, history) <==> HasEmployer(k, history, x)
  {
  }

  ghost predicate ClaimsEmployer(resume: Resume, x: string) {
    x in resume.employers || ClaimsText(resume, Employer, x)
  }

  lemma ClaimedEmployerIff(resume: Resume, x: string)
    ensures x in ClaimedEmployers(resume) <==> ClaimsEmployer(resume, x)
  {
    TextsOfKindMembers(resume.claims, Employer);
  }

  lemma AnyClaimed(resume: Resume)
    ensures ClaimedEmployers(resume) != [] <==> exists x :: ClaimsEmployer(resume, x)
  {
    if ClaimedEmployers(resume) != [] {
      ClaimedEmployerIff(resume, ClaimedEmployers(resume)[0]);
    }
    if x :| ClaimsEmployer(resume, x) {
      ClaimedEmployerIff(resume, x);
    }
  }

  /**
   The employer check fails exactly when a claimed employer is not one of the roles'; or, when none is claimed,
   when the document has a phrase that names none of them.
   */
  lemma EmployerFailsIff(k: Checker, resume: Resume, history: History)
    ensures AnyUnknownEmployer(k, resume, history) <==>
              if exists x :: ClaimsEmployer(resume, x) then
                exists x :: ClaimsEmployer(resume, x) && !HasEmployer(k, history, x)
              else exists x :: x in k.employerPhrases(resume.doc) && x != "" && !HasEmployer(k, history, x)
  {
    AnyClaimed(resume);
    forall x
      ensures x in ClaimedEmployers(resume) <==> ClaimsEmployer(resume, x)
      ensures NormalEmployer(k, x) in SourceEmployers(k, history) <==> HasEmployer(k, history, x)
    {
      ClaimedEmployerIff(resume, x);
      EmployerKnownIff(k, history, x);
    }
    if ClaimedEmployers(resume) == [] {
      StrayIff(k, resume.doc, history);
    }
  }

  lemma StrayIff(k: Checker, doc: string, history: History)
    ensures StrayEmployers(k, doc, SourceEmployers(k, history)) != {} <==>
              exists x :: x in k.employerPhrases(doc) && x != "" && !HasEmployer(k, history, x)
  {
    forall x
      ensures NormalEmployer(k, x) in SourceEmployers(k, history) <==> HasEmployer(k, history, x)
    {
      EmployerKnownIff(k, history, x);
    }
    if x :| x in k.employerPhrases(doc) && x != "" && !HasEmployer(k, history, x) {
      assert x in StrayEmployers(k, doc, SourceEmployers(k, history));
    }
    if x :| x in StrayEmployers(k, doc, SourceEmployers(k, history)) {
      assert x in k.employerPhrases(doc) && x != "" && !HasEmployer(k, history, x);
    }
  }

  /** The title check fails exactly when a claimed title is not one of the roles'. */
  lemma TitleFailsIff(k: Checker, resume: Resume, history: History)
    ensures AnyUnknownTitle(k, resume, history) <==>
              exists x :: (x in resume.titles || ClaimsText(resume, Title, x)) && !HasTitle(k, history, x)
  {
    TextsOfKindMembers(resume.claims, Title);
    forall x
      ensures NormalName(k, x) in SourceTitles(k, history) <==> HasTitle(k, history, x)
    {
    }
    if x :| (x in resume.titles || ClaimsText(resume, Title, x)) && !HasTitle(k, history, x) {
      assert x in resume.titles + TextsOfKind(resume.claims, Title);
    }
  }

  // ---------------------------------------------------------------- dates

  /** A date stands for its normalized text and for its year. */
  ghost predicate StandsFor(k: Checker, raw: string, token: string) {
    raw != "" && (token == Normalize(k.alphabet, raw) || (token != "" && k.year(raw) == Some(token)))
  }

  /** A role's dates: start, end, "present" when it goes on, and the whole range written in three ways. */
  ghost predicate DatesRole(k: Checker, r: Role, token: string) {
    var start, stated := Strip(r.start), Strip(r.end);
    var goesOn := r.isCurrent || stated == "";
    DatesRange(k, start, stated, if goesOn then "present" else stated, goesOn, token)
  }

  ghost predicate DatesRange(k: Checker, start: string, stated: string, end: string, goesOn: bool, token: string) {
    || StandsFor(k, start, token) || StandsFor(k, stated, token) || StandsFor(k, end, token)
    || (goesOn && (token == "present" || token == "current" || token == "now"))
    || token == Normalize(k.alphabet, start + " " + EN_DASH + " " + end)
    || token == Normalize(k.alphabet, start + "-" + end) || token == Normalize(k.alphabet, start + " to " + end)
  }

  lemma DateTokensIff(k: Checker, raw: string, token: string)
    ensures token in DateTokens(k, raw) <==> StandsFor(k, raw, token)
  {
  }

  lemma InThree(x: string, a: string, b: string, c: string)
    ensures x in {a, b, c} <==> x == a || x == b || x == c
  {
  }

  lemma UnionOfFive<T>(x: T, a: set<T>, b: set<T>, c: set<T>, d: set<T>, e: set<T>)
    ensures x in a + b + c + d + e <==> x in a || x in b || x in c || x in d || x in e
  {
  }

  lemma DatesRangeIff(k: Checker, start: string, stated: string, end: string, goesOn: bool, token: string)
    ensures var dates := DateTokens(k, start) + DateTokens(k, stated) + DateTokens(k, end)
                         + (if goesOn then {"present", "current", "now"} else {})
                         + {NormalName(k, start + " " + EN_DASH + " " + end), NormalName(k, start + "-" + end),
                            NormalName(k, start + " to " + end)};
            token in dates <==> DatesRange(k, start, stated, end, goesOn, token)
  {
    DateTokensIff(k, start, token);
    DateTokensIff(k, stated, token);
    DateTokensIff(k, end, token);
    var ongoing := if goesOn then {"present", "current", "now"} else {};
    InThree(token, "present", "current", "now");
    var dashed := NormalName(k, start + " " + EN_DASH + " " + end);
    var hyphened, worded := NormalName(k, start + "-" + end), NormalName(k, start + " to " + end);
    InThree(token, dashed, hyphened, worded);
    UnionOfFive(token, DateTokens(k, start), DateTokens(k, stated), DateTokens(k, end), ongoing,
                {dashed, hyphened, worded});
  }

  lemma RoleDatesIff(k: Checker, r: Role, token: string)
    ensures token in RoleDates(k, r) <==> DatesRole(k, r, token)
  {
    var start, stated := Strip(r.start), Strip(r.end);
    var goesOn := r.isCurrent || stated == "";
    DatesRangeIff(k, start, stated, if goesOn then "present" else stated, goesOn, token);
  }

  lemma {:induction false} SourceDatesIff(k: Checker, history: History, token: string)
    ensures token in SourceDates(k, history) <==> SomeRole(k, history, token)
  {
    if history != [] {
      var front, last := history[..|history| - 1], history[|history| - 1];
      SourceDatesIff(k, front, token);
      RoleDatesIff(k, last, token);
      SomeOfFrontOrLast(front, last, r => DatesRole(k, r, token));
      assert history == front + [last];
    }
  }

  lemma SomeOfFrontOrLast(front: History, last: Role, holds: Role ~> bool)
    requires forall r :: holds.requires(r) && holds.reads(r) == {}
    ensures (exists r :: r in front + [last] && holds(r)) <==> (exists r :: r in front && holds(r)) || holds(last)
  {
    assert last in front + [last];
    if r :| r in front && holds(r) {
      assert r in front + [last];
    }
  }

  ghost predicate SomeRole(k: Checker, history: History, token: string) {
    exists r :: r in history && DatesRole(k, r, token)
  }

  /** A range is known when its text, its year, or every non-empty part of it is a date of some role. */
  ghost predicate KnownRange(k: Checker, history: History, raw: string) {
    var text := Normalize(k.alphabet, raw);
    || SomeRole(k, history, text)
    || (k.year(raw).Some? && k.year(raw).value != "" && SomeRole(k, history, k.year(raw).value))
    || (k.dateParts(text) != [] && forall p :: p in k.dateParts(text) && p != "" ==> SomeRole(k, history, p))
  }

  lemma DateInSourceIff(k: Checker, history: History, raw: string)
    ensures DateInSource(k, raw, SourceDates(k, history)) <==> KnownRange(k, history, raw)
  {
    forall token
      ensures token in SourceDates(k, history) <==> SomeRole(k, history, token)
    {
      SourceDatesIff(k, history, token);
    }
  }

  /** The date check fails exactly when a range of the resume, or of one of its claims, is not known. */
  lemma DatesFailIff(k: Checker, resume: Resume, history: History)
    ensures AnyUnknownRange(k, resume, history) <==> exists d :: d in resume.dateRanges && !KnownRange(k, history, d)
    ensures AnyUnknownDateClaim(k, resume, history) <==>
              exists c :: c in resume.claims && c.kind == DateRange && !KnownRange(k, history, c.text)
  {
    forall d
      ensures DateInSource(k, d, SourceDates(k, history)) <==> KnownRange(k, history, d)
    {
      DateInSourceIff(k, history, d);
    }
  }

  // ---------------------------------------------------------------- numbers and skills

  /** Some role says this: in a field, in a bullet, or by going on. */
  ghost predicate Says(history: History, text: string) {
    exists r :: r in history && RoleSays(r, text)
  }

  ghost predicate RoleSays(r: Role, text: string) {
    || (text != "" && (text == r.employer || text == r.title || text == r.start || text == r.end || text == r.location))
    || (r.isCurrent && text == "present")
    || (text != "" && exists b :: b in r.bullets && b.text == text)
  }

  lemma {:induction false} BulletTextsIff(bullets: seq<Bullet>, text: string)
    ensures text in BulletTexts(bullets) <==> text != "" && exists b :: b in bullets && b.text == text
  {
    if bullets != [] {
      var front, last := bullets[..|bullets| - 1], bullets[|bullets| - 1];
      BulletTextsIff(front, text);
      assert bullets == front + [last];
    }
  }

  lemma PresentTextIff(r: Role, text: string)
    ensures text in PresentText(r) <==>
              || (text != "" && (text == r.employer || text == r.title || text == r.start || text == r.end
                                 || text == r.location))
              || (r.isCurrent && text == "present")
  {
  }

  lemma InEither(a: seq<string>, b: seq<string>, c: seq<string>, text: string)
    ensures text in a + b + c <==> text in a || text in b || text in c
  {
  }

  lemma {:induction false} FlattenPartsIff(history: History, text: string)
    ensures text in FlattenParts(history) <==> Says(history, text)
  {
    if history != [] {
      var front, last := history[..|history| - 1], history[|history| - 1];
      FlattenPartsIff(front, text);
      PresentTextIff(last, text);
      BulletTextsIff(last.bullets, text);
      SomeOfFrontOrLast(front, last, r => RoleSays(r, text));
      assert history == front + [last];
      InEither(FlattenParts(front), PresentText(last), BulletTexts(last.bullets), text);
    }
  }

  /** The number check fails exactly when the document has a number that the roles' texts, joined by lines, have not. */
  lemma NumbersFailIff(k: Checker, resume: Resume, history: History) returns (parts: seq<string>)
    ensures forall text :: text in parts <==> Says(history, text)
    ensures AnyFabricatedNumber(k, resume, history) <==>
              exists n :: n in k.numbers(resume.doc) && n !in k.numbers(Join("\n", parts))
  {
    parts := FlattenParts(history);
    forall text
      ensures text in parts <==> Says(history, text)
    {
      FlattenPartsIff(history, text);
    }
  }

  /** A resume shows a skill: claims it, in a claim, by a skill claim that links to it, or by mentioning it. */
  ghost predicate Shows(k: Checker, resume: Resume, s: string) {
    || s in resume.claimedSkills
    || (exists c :: c in resume.claims && c.skillId != "" && c.skillId == s)
    || (exists c :: c in resume.claims && c.kind == Skill && c.text != "" && s in k.linkSpan(c.text))
    || s in k.scan(resume.doc)
  }

  lemma {:induction false} ClaimSkillsIff(k: Checker, claims: seq<Claim>, s: string)
    ensures s in ClaimSkills(k, claims) <==>
              || (exists c :: c in claims && c.skillId != "" && c.skillId == s)
              || (exists c :: c in claims && c.kind == Skill && c.text != "" && s in k.linkSpan(c.text))
  {
    if claims != [] {
      var front, last := claims[..|claims| - 1], claims[|claims| - 1];
      ClaimSkillsIff(k, front, s);
      assert claims == front + [last];
    }
  }

  /** The skill check fails exactly when the resume shows a skill the user has not. */
  lemma SkillsFailIff(k: Checker, resume: Resume, userSkills: set<string>)
    ensures AnySkillOutOfSet(k, resume, userSkills) <==> exists s :: Shows(k, resume, s) && s !in userSkills
  {
    forall s
      ensures s in OutputSkills(k, resume) <==> Shows(k, resume, s)
    {
      ClaimSkillsIff(k, resume.claims, s);
    }
  }

  // ---------------------------------------------------------------- how a role is printed

  /** The number a text of digits stands for. */
  function NumberOf(digits: string): nat {
    if digits == "" then 0
    else
      var last := digits[|digits| - 1];
      10 * NumberOf(digits[..|digits| - 1]) + if '0' <= last <= '9' then last as int - '0' as int else 0
  }

  /** An index is printed in decimal, without a leading zero. */
  lemma {:induction false} DecimalReads(n: nat)
    ensures NumberOf(Decimal(n)) == n && Decimal(n) != "" && (n > 0 ==> Decimal(n)[0] != '0')
  {
    if n >= 10 {
      DecimalReads(n / 10);
      assert Decimal(n)[..|Decimal(n)| - 1] == Decimal(n / 10);
    } else {
      assert Decimal(n)[..0] == "";
    }
  }

  /** A role is printed under its span: employer, title and dates, and a location that is not blank. */
  lemma FieldsPrint(index: nat, r: Role)
    ensures var end := if r.isCurrent || r.end == "" then "present" else Strip(r.end);
            FieldLines(index, r)
            == ["Role span_id=" + ("wh:" + Decimal(index)), "Employer: " + Strip(r.employer),
                "Title: " + Strip(r.title), "Dates: " + (Strip(r.start) + " " + "\U{2013}" + " " + end)]
               + if Strip(r.location) == "" then [] else ["Location: " + Strip(r.location)]
  {
  }

  /** One more bullet is one more line, with its own span or one made from its place, unless it is blank. */
  lemma BulletPrints(index: nat, bullets: seq<Bullet>, b: Bullet)
    ensures var span := if b.spanId == "" then "wh:" + Decimal(index) + ":b:" + Decimal(|bullets|) else b.spanId;
            BulletLines(index, bullets + [b])
            == BulletLines(index, bullets) + if Strip(b.text) == "" then [] else ["- [" + span + "] " + Strip(b.text)]
  {
    assert (bullets + [b])[..|bullets|] == bullets;
  }

  /** The roles come in order, each with its fields, its bullets and an empty line. */
  lemma RolePrints(history: History, r: Role)
    ensures HistoryLines(history + [r])
            == HistoryLines(history) + (FieldLines(|history|, r) + BulletLines(|history|, r.bullets) + [""])
  {
    assert (history + [r])[..|history|] == history;
  }

  // ---------------------------------------------------------------- what a history reads back as

  /** The non-empty texts of one field, role by role. */
  function Field(history: History, of: Role -> string): seq<string> {
    if history == [] then []
    else
      var last := of(history[|history| - 1]);
      Field(history[..|history| - 1], of) + if last == "" then [] else [last]
  }

  /** One claim of a role, unless its text is empty. */
  function ClaimOf(kind: ClaimKind, text: string, span: string): seq<Claim> {
    if text == "" then [] else [Claim(text, [span], kind, "")]
  }

  function BulletClaims(index: nat, bullets: seq<Bullet>): seq<Claim> {
    if bullets == [] then []
    else
      var j: nat := |bullets| - 1;
      BulletClaims(index, bullets[..j]) + ClaimOf(Accomplishment, Strip(bullets[j].text), SpanOf(index, j, bullets[j]))
  }

  /** The claims of each role in turn: its employer, title and dates, cited by the role, and then its bullets. */
  function Claims(history: History): seq<Claim> {
    if history == [] then []
    else
      var i: nat := |history| - 1;
      var r := history[i];
      Claims(history[..i])
      + ClaimOf(Employer, Strip(r.employer), RoleSpan(i)) + ClaimOf(Title, Strip(r.title), RoleSpan(i))
      + ClaimOf(DateRange, Strip(DateText(r)), RoleSpan(i)) + BulletClaims(i, r.bullets)
  }

  lemma {:induction false} BulletsAdd(st: Collected, index: nat, bullets: seq<Bullet>)
    ensures var st' := AddBullets(st, index, bullets);
            && st'.employers == st.employers && st'.titles == st.titles && st'.dateRanges == st.dateRanges
            && st'.claims == st.claims + BulletClaims(index, bullets)
  {
    if bullets != [] {
      BulletsAdd(st, index, bullets[..|bullets| - 1]);
    }
  }

  lemma RoleAdds(st: Collected, index: nat, r: Role)
    ensures var st' := AddRole(st, index, r);
            && st'.employers == st.employers + (if Strip(r.employer) == "" then [] else [Strip(r.employer)])
            && st'.titles == st.titles + (if Strip(r.title) == "" then [] else [Strip(r.title)])
            && st'.dateRanges == st.dateRanges + (if Strip(DateText(r)) == "" then [] else [Strip(DateText(r))])
            && st'.claims == st.claims + ClaimOf(Employer, Strip(r.employer), RoleSpan(index))
                             + ClaimOf(Title, Strip(r.title), RoleSpan(index))
                             + ClaimOf(DateRange, Strip(DateText(r)), RoleSpan(index)) + BulletClaims(index, r.bullets)
  {
    var s1 := TakeEmployer(st.(currentSpan := RoleSpan(index)), Strip(r.employer));
    var s2 := TakeTitle(s1, Strip(r.title));
    var s3 := TakeDates(s2, Strip(DateText(r)));
    BulletsAdd(s3, index, r.bullets);
    assert s1.claims == st.claims + ClaimOf(Employer, Strip(r.employer), RoleSpan(index));
    assert s2.claims == s1.claims + ClaimOf(Title, Strip(r.title), RoleSpan(index));
    assert s3.claims == s2.claims + ClaimOf(DateRange, Strip(DateText(r)), RoleSpan(index));
  }

  /** A history reads back as its employers, titles and date ranges, stripped and in order, and as its claims. */
  lemma {:induction false} ReadsBackAs(history: History)
    ensures var st := AddHistory(NOTHING, history);
            && st.employers == Field(history, (r: Role) => Strip(r.employer))
            && st.titles == Field(history, (r: Role) => Strip(r.title))
            && st.dateRanges == Field(history, (r: Role) => Strip(DateText(r)))
            && st.claims == Claims(history)
  {
    if history != [] {
      var front := history[..|history| - 1];
      ReadsBackAs(front);
      RoleAdds(AddHistory(NOTHING, front), |history| - 1, history[|history| - 1]);
    }
  }
}
