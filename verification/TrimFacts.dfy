/** What the two trimmed documents keep and how they read, said without the functions that build them. */
module TrimFacts {
  import opened Text
  import opened Wrappers
  import JobDocument
  import opened ProfileDocument

  /** A job document fits when it has at most 2000 characters. */
  lemma FitsIff(doc: string)
    ensures JobDocument.Fits(doc) <==> |doc| <= 2000
  {
    JobDocument.TokensBoundChars(doc, 500);
  }

  /** A profile document fits when it has at most four characters for each token allowed. */
  lemma ProfileFitsIff(header: seq<string>, history: History, maxTokens: nat)
    ensures FitsIn(header, history, maxTokens) <==> |RenderProfile(header, history)| <= 4 * maxTokens
  {
    JobDocument.TokensBoundChars(RenderProfile(header, history), maxTokens);
  }

  /** These are the values with something left once stripped, stripped, in their order. */
  ghost predicate AreStripped(kept: seq<string>, values: seq<string>, p: seq<nat>) {
    && |p| == |kept|
    && (forall i :: 0 <= i < |p| ==> p[i] < |values| && kept[i] == Strip(values[p[i]]) && kept[i] != "")
    && (forall i, j :: 0 <= i < j < |p| ==> p[i] < p[j])
    && (forall k: nat :: k < |values| && Strip(values[k]) != "" ==> k in p)
  }

  lemma StrippedSnoc(kept: seq<string>, front: seq<string>, last: string, p: seq<nat>)
    requires AreStripped(kept, front, p)
    ensures Strip(last) == "" ==> AreStripped(kept, front + [last], p)
    ensures Strip(last) != "" ==> AreStripped(kept + [Strip(last)], front + [last], p + [|front|])
  {
    forall k: nat | k < |front + [last]| && Strip((front + [last])[k]) != ""
      ensures k < |front| ==> k in p
      ensures k in p + [|front|]
    {
      if k < |front| {
        assert front[k] == (front + [last])[k];
      }
    }
  }

  /** The labels that go in are the ones with something left once stripped, stripped, in their order. */
  lemma {:induction false} NonBlankAre(values: seq<string>) returns (p: seq<nat>)
    ensures AreStripped(JobDocument.NonBlank(values), values, p)
  {
    if values == [] {
      p := [];
    } else {
      var front, last := values[..|values| - 1], values[|values| - 1];
      p := NonBlankAre(front);
      assert values == front + [last];
      StrippedSnoc(JobDocument.NonBlank(front), front, last, p);
      if Strip(last) != "" {
        p := p + [|front|];
      } else {
        assert JobDocument.NonBlank(front) + [] == JobDocument.NonBlank(front);
      }
    }
  }

  // ---------------------------------------------------------------- the lines of a job document

  /** Each line is there exactly when its field is, and they come in this order. */
  lemma LinesAre(show: int -> string, f: JobDocument.Fields, skills: seq<string>, reqs: seq<string>)
    returns (title: seq<string>, seniority: seq<string>, skill: seq<string>, req: seq<string>, comp: seq<string>)
    ensures JobDocument.Lines(show, f, skills, reqs) == title + seniority + skill + req + comp
    ensures if Strip(f.title) == "" then title == [] else title == ["Title: " + Strip(f.title)]
    ensures if Strip(f.seniority) == "" then seniority == [] else seniority == ["Seniority: " + Strip(f.seniority)]
    ensures if skills == [] then skill == [] else skill == ["Skills: " + Join("; ", skills)]
    ensures if reqs == [] then req == [] else req == ["Hard requirements: " + Join("; ", reqs)]
    ensures match (f.compMin, f.compMax)
            case (None, None) => comp == []
            case (Some(low), Some(high)) => comp == ["Compensation: " + show(low) + "-" + show(high)]
            case (Some(low), None) => comp == ["Compensation: " + show(low) + "+"]
            case (None, Some(high)) => comp == ["Compensation: up to " + show(high)]
  {
    title := if Strip(f.title) == "" then [] else ["Title: " + Strip(f.title)];
    seniority := if Strip(f.seniority) == "" then [] else ["Seniority: " + Strip(f.seniority)];
    skill := if skills == [] then [] else ["Skills: " + Join("; ", skills)];
    req := if reqs == [] then [] else ["Hard requirements: " + Join("; ", reqs)];
    var line := JobDocument.CompLine(show, f);
    comp := if line.None? then [] else [line.value];
  }

  // ---------------------------------------------------------------- one thing at a time

  /** Roles and bullets together. */
  function Size(history: History): nat {
    |history| + Bullets(history)
  }

  lemma TrimDropsOne(history: History)
    requires !Bare(history)
    ensures Size(Trim(history)) == Size(history) - 1
  {
    if history[0].bullets != [] {
      assert Trim(history)[1..] == history[1..];
    }
  }

  lemma SmallestIsBare(history: History)
    requires history != []
    ensures Bare(history) <==> Size(history) == 1
  {
    if |history| == 1 {
      assert Bullets(history[1..]) == 0;
    }
  }

  /**
   Every stage drops one bullet or one role without bullets, until one bare role is left: stage n is the
   suffix of the roles, with the oldest kept one's first bullets, that is n smaller than the whole.
   */
  lemma {:induction false} StageIs(full: History, n: nat) returns (k: nat, b: nat)
    requires full != []
    ensures IsSuffix(full, AfterTrims(full, n), k, b)
    ensures Size(AfterTrims(full, n)) == if n < Size(full) then Size(full) - n else 1
  {
    k, b := TrimmedIsSuffix(full, n);
    if n > 0 {
      var k', b' := StageIs(full, n - 1);
      SmallestIsBare(AfterTrims(full, n - 1));
      if !Bare(AfterTrims(full, n - 1)) {
        TrimDropsOne(AfterTrims(full, n - 1));
      }
    }
  }

  /** The document written is that of the largest such suffix that fits, or else of the bare newest role, clipped. */
  lemma LargestSuffixThatFits(header: seq<string>, full: History, maxTokens: nat, n: nat, m: nat)
    requires full != [] && IsFirstFit(header, full, maxTokens, n)
    requires m < Size(full) && Size(AfterTrims(full, m)) > Size(AfterTrims(full, n))
    ensures |RenderProfile(header, AfterTrims(full, m))| > 4 * maxTokens
  {
    var _, _ := StageIs(full, n);
    var _, _ := StageIs(full, m);
    ProfileFitsIff(header, AfterTrims(full, m), maxTokens);
  }

  /** How a role reads: a missing start is a question mark, a current or open end is "present". */
  lemma RoleReads(title: string, employer: string, start: string, end: string, location: string)
    requires start != "" && end != "" && location != ""
    ensures RoleLine(Entry(title, employer, start, end, false, location))
            == title + " \U{2014} " + employer + " (" + start + " \U{2013} " + end + ")" + " (" + location + ")"
    ensures RoleLine(Entry(title, employer, "", end, true, ""))
            == title + " \U{2014} " + employer + " (" + "?" + " \U{2013} " + "present" + ")" + ""
    ensures RoleLine(Entry(title, employer, start, "", false, ""))
            == title + " \U{2014} " + employer + " (" + start + " \U{2013} " + "present" + ")" + ""
  {
  }

  /** A role's lines are its own, a dash and its text for each bullet, and an empty one. */
  lemma {:induction false} LinesOfHistory(history: History, last: Role, text: string)
    ensures HistoryLines(history + [Role(last.entry, last.bullets + [text])])
            == HistoryLines(history) + [RoleLine(last.entry)] + BulletLines(last.bullets) + ["- " + text] + [""]
  {
    var all := history + [Role(last.entry, last.bullets + [text])];
    assert all[..|all| - 1] == history;
    assert (last.bullets + [text])[..|last.bullets|] == last.bullets;
  }
}
