/** The printed work history (app/generate/history.py) and the resume read back from it (app/evals/fabrication.py). */
module WorkHistory {
  import opened Text

  const EN_DASH := "\U{2013}"
  const EM_DASH := "\U{2014}"

  const HEADER := [
    "CACHED_WORK_HISTORY_BEGIN",
    "This block is the only" + " allowed source of" + " employers, titles, dates,",
    "numbers, and" + " accomplishments. Cite" + " span_id values on every claim.",
    "Role-level facts" + " (employer, title, dates)" + " use span_id wh:{role}.",
    "Bullets use the span_id" + " shown in brackets.",
    ""
  ]

  const FOOTER := "CACHED_WORK_HISTORY_END"

  const NO_HISTORY := "(no work history)"

  /** The empty string stands for a missing field; a bullet given as bare text has no span id. */
  datatype Bullet = Bullet(spanId: string, text: string)

  datatype Role = Role(employer: string, title: string, start: string, end: string, isCurrent: bool,
                       location: string, bullets: seq<Bullet>)

  type History = seq<Role>

  function Digit(n: nat): char
    requires n < 10
  {
    ("0123456789")[n]
  }

  function Decimal(n: nat): string {
    if n < 10 then [Digit(n)] else Decimal(n / 10) + [Digit(n % 10)]
  }

  lemma {:induction false} DecimalIsDigits(n: nat)
    ensures Decimal(n) != "" && forall i :: 0 <= i < |Decimal(n)| ==> '0' <= Decimal(n)[i] <= '9'
  {
    if n >= 10 {
      DecimalIsDigits(n / 10);
    }
  }

  // ---------------------------------------------------------------- the printer

  function RoleSpan(index: nat): string {
    "wh:" + Decimal(index)
  }

  function SpanOf(index: nat, j: nat, b: Bullet): string {
    if b.spanId != "" then b.spanId else RoleSpan(index) + ":b:" + Decimal(j)
  }

  function PrintedEnd(role: Role): string {
    if role.isCurrent || role.end == "" then "present" else Strip(role.end)
  }

  function DateText(role: Role): string {
    Strip(role.start) + " " + EN_DASH + " " + PrintedEnd(role)
  }

  function BulletLine(index: nat, j: nat, b: Bullet): string {
    "- [" + SpanOf(index, j, b) + "] " + Strip(b.text)
  }

  function BulletLines(index: nat, bullets: seq<Bullet>): seq<string> {
    if bullets == [] then []
    else
      var j := |bullets| - 1;
      BulletLines(index, bullets[..j])
        + (if Strip(bullets[j].text) == "" then [] else [BulletLine(index, j, bullets[j])])
  }

  function LocationLines(role: Role): seq<string> {
    if Strip(role.location) == "" then [] else ["Location: " + Strip(role.location)]
  }

  function FieldLines(index: nat, role: Role): seq<string> {
    [ "Role span_id=" + RoleSpan(index),
      "Employer: " + Strip(role.employer),
      "Title: " + Strip(role.title),
      "Dates: " + DateText(role) ]
    + LocationLines(role)
  }

  function RoleLines(index: nat, role: Role): seq<string> {
    FieldLines(index, role) + BulletLines(index, role.bullets) + [""]
  }

  function HistoryLines(history: History): seq<string> {
    if history == [] then []
    else HistoryLines(history[..|history| - 1]) + RoleLines(|history| - 1, history[|history| - 1])
  }

  /** The block below a given header. */
  function Block(header: seq<string>, history: History): string {
    if history == [] then Join("\n", header + [NO_HISTORY, FOOTER])
    else RStrip(Join("\n", header + HistoryLines(history) + [FOOTER])) + "\n"
  }

  function Render(history: History): string {
    Block(HEADER, history)
  }

  method PrintBullets(index: nat, bullets: seq<Bullet>, before: seq<string>) returns (lines: seq<string>)
    ensures lines == before + BulletLines(index, bullets)
  {
    lines := before;
    for j := 0 to |bullets|
      invariant lines == before + BulletLines(index, bullets[..j])
    {
      var bullet := bullets[j];
      assert bullets[..j + 1][..j] == bullets[..j];
      var text := Strip(bullet.text);
      if text != "" {
        lines := lines + ["- [" + SpanOf(index, j, bullet) + "] " + text];
      }
    }
    assert bullets[..|bullets|] == bullets;
  }

  method PrintRole(index: nat, role: Role, before: seq<string>) returns (lines: seq<string>)
    ensures lines == before + RoleLines(index, role)
  {
    var employer, title, start := Strip(role.employer), Strip(role.title), Strip(role.start);
    var end := if role.isCurrent || role.end == "" then "present" else Strip(role.end);
    var location := Strip(role.location);
    lines := ["Role span_id=" + RoleSpan(index), "Employer: " + employer, "Title: " + title,
      "Dates: " + (start + " " + EN_DASH + " " + end)];
    if location != "" {
      lines := lines + ["Location: " + location];
    }
    assert lines == FieldLines(index, role);
    LinesRegroup(before, FieldLines(index, role), BulletLines(index, role.bullets), [""]);
    lines := PrintBullets(index, role.bullets, before + lines);
    lines := lines + [""];
  }

  lemma LinesRegroup(a: seq<string>, b: seq<string>, c: seq<string>, d: seq<string>)
    ensures a + b + c + d == a + (b + c + d)
  {
  }

  lemma HistoryLinesNext(header: seq<string>, history: History, index: nat)
    requires index < |history|
    ensures header + HistoryLines(history[..index + 1])
            == header + HistoryLines(history[..index]) + RoleLines(index, history[index])
  {
    assert history[..index + 1][..index] == history[..index];
  }

  method PrintBlock(header: seq<string>, history: History) returns (block: string)
    ensures block == Block(header, history)
  {
    var lines := header;
    if history == [] {
      return Join("\n", lines + [NO_HISTORY, FOOTER]);
    }
    for index := 0 to |history|
      invariant lines == header + HistoryLines(history[..index])
    {
      lines := PrintRole(index, history[index], lines);
      HistoryLinesNext(header, history, index);
    }
    assert history[..|history|] == history;
    block := RStrip(Join("\n", lines + [FOOTER])) + "\n";
  }

  method RenderWorkHistoryBlock(history: History) returns (block: string)
    ensures block == Render(history)
  {
    block := PrintBlock(HEADER, history);
  }

  // ---------------------------------------------------------------- splitlines

  /** The first line break, or the end. */
  function FirstBreak(s: string): (k: nat)
    ensures k <= |s|
    ensures k < |s| ==> IsLineBreak(s[k])
    ensures forall i :: 0 <= i < k ==> !IsLineBreak(s[i])
  {
    if s == "" || IsLineBreak(s[0]) then 0
    else
      var k := FirstBreak(s[1..]);
      assert forall i :: 0 < i < k + 1 ==> s[i] == s[1..][i - 1];
      k + 1
  }

  /** str.splitlines: a carriage return and line feed together are one break, and a final break ends no extra line. */
  function SplitLines(s: string): seq<string> {
    if s == "" then []
    else
      var k := FirstBreak(s);
      if k == |s| then [s]
      else if s[k] == '\r' && k + 1 < |s| && s[k + 1] == '\n' then [s[..k]] + SplitLines(s[k + 2..])
      else [s[..k]] + SplitLines(s[k + 1..])
  }

  lemma SplitFirstLine(line: string, rest: string)
    requires SingleLine(line)
    ensures SplitLines(line + "\n" + rest) == [line] + SplitLines(rest)
  {
    var s := line + "\n" + rest;
    assert s[|line|] == '\n';
    forall i | 0 <= i < |line|
      ensures !IsLineBreak(s[i])
    {
      assert s[i] == line[i];
    }
    assert FirstBreak(s) == |line|;
    assert s[..|line|] == line && s[|line| + 1..] == rest;
  }

  ghost predicate SingleLines(lines: seq<string>) {
    forall l :: l in lines ==> SingleLine(l)
  }

  lemma SplitOneLine(line: string, tail: string)
    requires SingleLine(line) && (tail == "\n" || (tail == "" && line != ""))
    ensures SplitLines(line + tail) == [line]
  {
    if tail == "" {
      assert line + tail == line;
      assert FirstBreak(line) == |line|;
    } else {
      SplitFirstLine(line, "");
      assert line + "\n" + "" == line + tail;
    }
  }

  lemma SplitNext(line: string, rest: string, text: string, lines: seq<string>)
    requires SingleLine(line) && text == line + "\n" + rest && SplitLines(rest) == lines
    ensures SplitLines(text) == [line] + lines
  {
    SplitFirstLine(line, rest);
  }

  /** Splitting undoes joining with line feeds, with and without a final one. */
  lemma {:induction false} SplitJoined(lines: seq<string>, tail: string)
    requires SingleLines(lines) && lines != []
    requires tail == "\n" || (tail == "" && lines[|lines| - 1] != "")
    ensures SplitLines(Join("\n", lines) + tail) == lines
  {
    if |lines| == 1 {
      SplitOneLine(lines[0], tail);
    } else {
      SplitJoined(lines[1..], tail);
      JoinFirst("\n", lines, tail);
      SplitNext(lines[0], Join("\n", lines[1..]) + tail, Join("\n", lines) + tail, lines[1..]);
    }
  }

  lemma JoinFirst(sep: string, lines: seq<string>, tail: string)
    requires |lines| > 1
    ensures Join(sep, lines) + tail == lines[0] + sep + (Join(sep, lines[1..]) + tail)
  {
  }

  lemma {:induction false} JoinEndsWith(lines: seq<string>)
    requires lines != [] && lines[|lines| - 1] != ""
    ensures var text := Join("\n", lines); var last := lines[|lines| - 1];
            text != "" && text[|text| - 1] == last[|last| - 1]
  {
    if |lines| > 1 {
      JoinEndsWith(lines[1..]);
    }
  }

  // ---------------------------------------------------------------- the parser

  datatype ClaimKind = Employer | Title | DateRange | Accomplishment | Skill | Number

  /** The empty string stands for a missing skill id. */
  datatype Claim = Claim(text: string, spanIds: seq<string>, kind: ClaimKind, skillId: string)

  /** What the line loop has collected. */
  datatype Collected = Collected(employers: seq<string>, titles: seq<string>, dateRanges: seq<string>,
                                 claims: seq<Claim>, body: seq<string>, currentSpan: string)

  const NOTHING := Collected([], [], [], [], [], "wh:0")

  /** str.find for one character. */
  function Find(s: string, c: char): (k: int)
    ensures -1 <= k < |s|
    ensures k >= 0 ==> s[k] == c && forall i :: 0 <= i < k ==> s[i] != c
    ensures k == -1 ==> c !in s
  {
    if s == "" then -1
    else if s[0] == c then 0
    else
      var k := Find(s[1..], c);
      assert s == [s[0]] + s[1..];
      if k < 0 then -1 else k + 1
  }

  function TakeEmployer(st: Collected, value: string): Collected {
    if value == "" then st
    else st.(employers := st.employers + [value], claims := st.claims + [Claim(value, [st.currentSpan], Employer, "")])
  }

  function TakeTitle(st: Collected, value: string): Collected {
    if value == "" then st
    else st.(titles := st.titles + [value], claims := st.claims + [Claim(value, [st.currentSpan], Title, "")],
             body := st.body + ["## " + value])
  }

  function TakeDates(st: Collected, value: string): Collected {
    if value == "" then st
    else st.(dateRanges := st.dateRanges + [value],
             claims := st.claims + [Claim(value, [st.currentSpan], DateRange, "")])
  }

  function TakeBullet(st: Collected, span: string, text: string): Collected {
    if text == "" then st
    else st.(claims := st.claims + [Claim(text, [span], Accomplishment, "")], body := st.body + ["- " + text])
  }

  /** What a line starts with. */
  datatype Marker = RoleMark | EmployerMark | TitleMark | DatesMark | BulletMark | NoMark

  function MarkerOf(line: string): Marker {
    if "Role span_id=" <= line then RoleMark
    else if "Employer:" <= line then EmployerMark
    else if "Title:" <= line then TitleMark
    else if "Dates:" <= line then DatesMark
    else if "- [" <= line then BulletMark
    else NoMark
  }

  /** The text after the marker: its own `=` or `:` is the first of the line. */
  function After(line: string, n: nat): string {
    if n <= |line| then line[n..] else ""
  }

  /** The span between brackets, or the current one, and the text after the bracket, or after the dash. */
  function BulletSpan(line: string, close: int, current: string): string
    requires close < |line|
  {
    if close > 3 then line[3..close] else current
  }

  function BulletText(line: string, close: int): string
    requires close < |line|
  {
    if close >= 0 then Strip(line[close + 1..]) else Strip(After(line, 2))
  }

  /** One turn of the line loop. */
  function TakeLine(st: Collected, marker: Marker, line: string): Collected {
    match marker
    case RoleMark => st.(currentSpan := Strip(After(line, 13)))
    case EmployerMark => TakeEmployer(st, Strip(After(line, 9)))
    case TitleMark => TakeTitle(st, Strip(After(line, 6)))
    case DatesMark => TakeDates(st, Strip(After(line, 6)))
    case BulletMark =>
      var close := Find(line, ']');
      TakeBullet(st, BulletSpan(line, close, st.currentSpan), BulletText(line, close))
    case NoMark => st
  }

  function ParseLine(st: Collected, raw: string): Collected {
    TakeLine(st, MarkerOf(Strip(raw)), Strip(raw))
  }

  function Fold(step: (Collected, string) -> Collected, st: Collected, lines: seq<string>): Collected {
    if lines == [] then st else step(Fold(step, st, lines[..|lines| - 1]), lines[|lines| - 1])
  }

  /** The line loop. */
  function ParseLines(st: Collected, lines: seq<string>): Collected {
    Fold(ParseLine, st, lines)
  }

  lemma {:induction false} FoldAppend(step: (Collected, string) -> Collected, st: Collected, a: seq<string>,
                                      b: seq<string>)
    ensures Fold(step, st, a + b) == Fold(step, Fold(step, st, a), b)
  {
    if b == [] {
      assert a + b == a;
    } else {
      FoldAppend(step, st, a, b[..|b| - 1]);
      assert (a + b)[..|a + b| - 1] == a + b[..|b| - 1];
    }
  }

  datatype Resume = Resume(doc: string, employers: seq<string>, titles: seq<string>, dateRanges: seq<string>,
                           claims: seq<Claim>, claimedSkills: seq<string>)

  function DocLines(st: Collected): seq<string> {
    if st.employers != [] && st.titles != [] then
      ["# " + st.titles[0], "", st.titles[0] + " " + EM_DASH + " " + st.employers[0], ""] + st.body
    else ["# Resume", ""] + st.body
  }

  function ToResume(st: Collected): Resume {
    Resume(Strip(Join("\n", DocLines(st))) + "\n", st.employers, st.titles, st.dateRanges, st.claims, [])
  }

  lemma ParseNext(st: Collected, lines: seq<string>, i: nat)
    requires i < |lines|
    ensures ParseLines(st, lines[..i + 1]) == ParseLine(ParseLines(st, lines[..i]), lines[i])
  {
    assert lines[..i + 1][..i] == lines[..i];
  }

  method ResumeFromCachePrefix(prefix: string) returns (resume: Resume)
    ensures resume == ToResume(ParseLines(NOTHING, SplitLines(prefix)))
  {
    var rawLines := SplitLines(prefix);
    var st := NOTHING;
    for i := 0 to |rawLines|
      invariant st == ParseLines(NOTHING, rawLines[..i])
    {
      ParseNext(NOTHING, rawLines, i);
      st := ParseLine(st, rawLines[i]);
    }
    assert rawLines[..|rawLines|] == rawLines;
    resume := Finish(st);
  }

  /** The headline goes in above the body when there is a title and an employer. */
  method Finish(st: Collected) returns (resume: Resume)
    ensures resume == ToResume(st)
  {
    var linesOut := ["# Resume", ""] + st.body;
    if st.employers != [] && st.titles != [] {
      linesOut := linesOut[0 := "# " + st.titles[0]];
      linesOut := linesOut[..2] + [st.titles[0] + " " + EM_DASH + " " + st.employers[0]] + linesOut[2..];
      linesOut := linesOut[..3] + [""] + linesOut[3..];
    }
    assert linesOut == DocLines(st);
    resume := Resume(Strip(Join("\n", linesOut)) + "\n", st.employers, st.titles, st.dateRanges, st.claims, []);
  }

  // ---------------------------------------------------------------- reading back one line

  lemma RStripAfter(p: string, y: string)
    requires p != "" && !IsSpace(p[|p| - 1])
    ensures RStrip(p + y) == p + RStrip(y)
  {
    var k := RStripSplits(y);
    var j := RStripSplits(p + y);
    assert forall i :: 0 <= i < |p| ==> (p + y)[i] == p[i];
    assert forall i :: 0 <= i < |y| ==> (p + y)[|p| + i] == y[i];
    assert j == |p| + k;
  }

  lemma StripIgnoresBlank(y: string)
    ensures Strip(" " + y) == Strip(y)
  {
    assert (" " + y)[1..] == y;
  }

  lemma StripSlice(y: string, lo: nat, hi: nat, k: nat)
    requires lo <= hi <= k <= |y| && Trimmed(y[lo..hi])
    requires forall i :: 0 <= i < lo || hi <= i < k ==> IsSpace(y[i])
    ensures Strip(y[..k]) == y[lo..hi]
  {
    assert y[..k] == y[..lo] + y[lo..hi] + y[hi..k];
    StripPadded(y[..lo], y[lo..hi], y[hi..k]);
  }

  lemma BlankStrip(s: string)
    requires forall i :: 0 <= i < |s| ==> IsSpace(s[i])
    ensures Strip(s) == ""
  {
    var lo, hi := StripSplits(s);
  }

  lemma StripIgnoresTail(y: string)
    ensures Strip(RStrip(y)) == Strip(y)
  {
    var k := RStripSplits(y);
    var lo, hi := StripSplits(y);
    if lo < hi {
      assert !IsSpace(y[hi - 1]);
      assert hi <= k;
      assert Trimmed(y[lo..hi]);
      StripSlice(y, lo, hi, k);
    } else {
      assert forall i :: 0 <= i < |y| ==> IsSpace(y[i]);
      assert k == 0;
      BlankStrip(y);
    }
  }

  /** A label, a blank and a text read back as the text. */
  lemma FieldReadsBack(name: string, x: string)
    requires name != "" && !IsSpace(name[0]) && !IsSpace(name[|name| - 1])
    ensures name <= Strip(name + " " + x)
    ensures Strip(Strip(name + " " + x)[|name|..]) == Strip(x)
  {
    var y := " " + x;
    assert name + " " + x == name + y;
    assert LStrip(name + y) == name + y;
    RStripAfter(name, y);
    StripIgnoresTail(y);
    StripIgnoresBlank(x);
    assert (name + RStrip(y))[|name|..] == RStrip(y);
  }

  lemma StripTwice(s: string)
    ensures Strip(Strip(s)) == Strip(s)
  {
    StripTrims(s);
    TrimmedStrip(Strip(s));
  }

  lemma RoleLineParses(st: Collected, index: nat)
    ensures ParseLine(st, "Role span_id=" + RoleSpan(index)) == st.(currentSpan := RoleSpan(index))
  {
    DecimalIsDigits(index);
    var raw := "Role span_id=" + RoleSpan(index);
    assert Trimmed(raw) && Trimmed(RoleSpan(index));
    TrimmedStrip(raw);
    TrimmedStrip(RoleSpan(index));
    assert After(raw, 13) == RoleSpan(index);
    assert MarkerOf(raw) == RoleMark;
  }

  lemma EmployerMarker(line: string)
    requires "Employer:" <= line
    ensures MarkerOf(line) == EmployerMark
  {
    assert line[0] == 'E';
  }

  lemma EmployerLineParses(st: Collected, value: string)
    ensures ParseLine(st, "Employer: " + Strip(value)) == TakeEmployer(st, Strip(value))
  {
    var raw := "Employer: " + Strip(value);
    assert raw == "Employer:" + " " + Strip(value);
    FieldReadsBack("Employer:", Strip(value));
    StripTwice(value);
    EmployerMarker(Strip(raw));
  }

  lemma TitleMarker(line: string)
    requires "Title:" <= line
    ensures MarkerOf(line) == TitleMark
  {
    assert line[0] == 'T';
  }

  lemma TitleLineParses(st: Collected, value: string)
    ensures ParseLine(st, "Title: " + Strip(value)) == TakeTitle(st, Strip(value))
  {
    var raw := "Title: " + Strip(value);
    assert raw == "Title:" + " " + Strip(value);
    FieldReadsBack("Title:", Strip(value));
    StripTwice(value);
    TitleMarker(Strip(raw));
  }

  lemma DatesMarker(line: string)
    requires "Dates:" <= line
    ensures MarkerOf(line) == DatesMark
  {
    assert line[0] == 'D';
  }

  lemma DatesLineParses(st: Collected, value: string)
    ensures ParseLine(st, "Dates: " + value) == TakeDates(st, Strip(value))
  {
    var raw := "Dates: " + value;
    assert raw == "Dates:" + " " + value;
    FieldReadsBack("Dates:", value);
    DatesMarker(Strip(raw));
  }

  lemma LocationMarker(line: string)
    requires "Location:" <= line
    ensures MarkerOf(line) == NoMark
  {
    assert line[0] == 'L';
  }

  lemma LocationLineSkipped(st: Collected, value: string)
    ensures ParseLine(st, "Location: " + value) == st
  {
    var raw := "Location: " + value;
    assert raw == "Location:" + " " + value;
    FieldReadsBack("Location:", value);
    LocationMarker(Strip(raw));
  }

  lemma BulletMarker(line: string)
    requires "- [" <= line
    ensures MarkerOf(line) == BulletMark
  {
    assert line[0] == '-';
  }

  lemma FindBracket(front: string, rest: string)
    requires ']' !in front && rest != "" && rest[0] == ']'
    ensures Find(front + rest, ']') == |front|
  {
    var raw := front + rest;
    forall i | 0 <= i < |front|
      ensures raw[i] != ']'
    {
      assert raw[i] == front[i];
    }
    assert raw[|front|] == ']';
  }

  lemma BulletLineParses(st: Collected, span: string, text: string)
    requires span != "" && ']' !in span && Trimmed(text) && text != ""
    ensures ParseLine(st, "- [" + span + "] " + text) == TakeBullet(st, span, text)
  {
    var front, rest := "- [" + span, "] " + text;
    var raw := "- [" + span + "] " + text;
    assert raw == front + rest;
    BulletLineTrimmed(span, text);
    TrimmedStrip(raw);
    FindBracket(front, rest);
    BulletMarker(raw);
    BulletParts(front, span, text);
  }

  lemma BulletLineTrimmed(span: string, text: string)
    requires Trimmed(text) && text != ""
    ensures Trimmed("- [" + span + "] " + text) && "- [" <= "- [" + span + "] " + text
  {
  }

  lemma BulletParts(front: string, span: string, text: string)
    requires front == "- [" + span && span != "" && Trimmed(text)
    ensures var raw := front + ("] " + text);
            BulletSpan(raw, |front|, "") == span && BulletText(raw, |front|) == text
  {
    var raw := front + ("] " + text);
    assert raw[3..|front|] == span;
    assert raw[|front| + 1..] == " " + text;
    StripIgnoresBlank(text);
    TrimmedStrip(text);
  }

  // ---------------------------------------------------------------- reading back the whole block

  /** What one role should give back. */
  function AddBullets(st: Collected, index: nat, bullets: seq<Bullet>): Collected {
    if bullets == [] then st
    else
      var j := |bullets| - 1;
      TakeBullet(AddBullets(st, index, bullets[..j]), SpanOf(index, j, bullets[j]), Strip(bullets[j].text))
  }

  function AddRole(st: Collected, index: nat, role: Role): Collected {
    var named := TakeTitle(TakeEmployer(st.(currentSpan := RoleSpan(index)), Strip(role.employer)), Strip(role.title));
    AddBullets(TakeDates(named, Strip(DateText(role))), index, role.bullets)
  }

  function AddHistory(st: Collected, history: History): Collected {
    if history == [] then st
       else AddRole(AddHistory(st, history[..|history| - 1]), |history| - 1, history[|history| - 1])
  }

  predicate PrintableBullet(b: Bullet) {
    ']' !in b.spanId && SingleLine(b.spanId) && SingleLine(Strip(b.text))
  }

  /** Every field fits on its line, and no span id closes its bracket. */
  ghost predicate Printable(role: Role) {
    && SingleLine(Strip(role.employer)) && SingleLine(Strip(role.title)) && SingleLine(Strip(role.start))
    && SingleLine(Strip(role.end)) && SingleLine(Strip(role.location))
    && forall b :: b in role.bullets ==> PrintableBullet(b)
  }

  lemma ParseLinesAppend(st: Collected, a: seq<string>, b: seq<string>)
    ensures ParseLines(st, a + b) == ParseLines(ParseLines(st, a), b)
  {
    FoldAppend(ParseLine, st, a, b);
  }

  lemma {:induction false} BulletsReadBack(st: Collected, index: nat, bullets: seq<Bullet>)
    requires forall b :: b in bullets ==> PrintableBullet(b)
    ensures ParseLines(st, BulletLines(index, bullets)) == AddBullets(st, index, bullets)
  {
    if bullets != [] {
      var j := |bullets| - 1;
      var b := bullets[j];
      BulletsReadBack(st, index, bullets[..j]);
      if Strip(b.text) != "" {
        StripTrims(b.text);
        SpanIsPlain(index, j, b);
        BulletLineParses(AddBullets(st, index, bullets[..j]), SpanOf(index, j, b), Strip(b.text));
        ParseLinesAppend(st, BulletLines(index, bullets[..j]), [BulletLine(index, j, b)]);
      } else {
        assert BulletLines(index, bullets) == BulletLines(index, bullets[..j]);
      }
    }
  }

  lemma SpanIsPlain(index: nat, j: nat, b: Bullet)
    requires PrintableBullet(b)
    ensures SpanOf(index, j, b) != "" && ']' !in SpanOf(index, j, b) && SingleLine(SpanOf(index, j, b))
  {
    DecimalIsDigits(index);
    DecimalIsDigits(j);
  }

  /** One more line, whatever it parses to. */
  lemma ParseOneMore(st: Collected, lines: seq<string>, mid: Collected, line: string, end: Collected)
    requires ParseLines(st, lines) == mid && ParseLine(mid, line) == end
    ensures ParseLines(st, lines + [line]) == end
  {
    assert (lines + [line])[..|lines|] == lines;
  }

  lemma RoleAndEmployer(st: Collected, index: nat, role: Role, s2: Collected)
    requires s2 == TakeEmployer(st.(currentSpan := RoleSpan(index)), Strip(role.employer))
    ensures ParseLines(st, ["Role span_id=" + RoleSpan(index), "Employer: " + Strip(role.employer)]) == s2
  {
    var l1, l2 := "Role span_id=" + RoleSpan(index), "Employer: " + Strip(role.employer);
    var s1 := st.(currentSpan := RoleSpan(index));
    RoleLineParses(st, index);
    ParseOneMore(st, [], st, l1, s1);
    EmployerLineParses(s1, role.employer);
    ParseOneMore(st, [] + [l1], s1, l2, s2);
    assert [] + [l1] + [l2] == [l1, l2];
  }

  lemma TitleAndDates(s2: Collected, role: Role, s4: Collected)
    requires s4 == TakeDates(TakeTitle(s2, Strip(role.title)), Strip(DateText(role)))
    ensures ParseLines(s2, ["Title: " + Strip(role.title), "Dates: " + DateText(role)]) == s4
  {
    var l3, l4 := "Title: " + Strip(role.title), "Dates: " + DateText(role);
    var s3 := TakeTitle(s2, Strip(role.title));
    TitleLineParses(s2, role.title);
    ParseOneMore(s2, [], s2, l3, s3);
    DatesLineParses(s3, DateText(role));
    ParseOneMore(s2, [] + [l3], s3, l4, s4);
    assert [] + [l3] + [l4] == [l3, l4];
  }

  lemma LocationSkipped(st: Collected, role: Role)
    ensures ParseLines(st, LocationLines(role)) == st
  {
    if Strip(role.location) != "" {
      LocationLineSkipped(st, Strip(role.location));
      ParseOneMore(st, [], st, "Location: " + Strip(role.location), st);
      assert [] + ["Location: " + Strip(role.location)] == LocationLines(role);
    }
  }

  lemma FieldsReadBack(st: Collected, index: nat, role: Role, s4: Collected)
    requires var s2 := TakeEmployer(st.(currentSpan := RoleSpan(index)), Strip(role.employer));
             s4 == TakeDates(TakeTitle(s2, Strip(role.title)), Strip(DateText(role)))
    ensures ParseLines(st, FieldLines(index, role)) == s4
  {
    var s2 := TakeEmployer(st.(currentSpan := RoleSpan(index)), Strip(role.employer));
    var two := ["Role span_id=" + RoleSpan(index), "Employer: " + Strip(role.employer)];
    var more := ["Title: " + Strip(role.title), "Dates: " + DateText(role)];
    RoleAndEmployer(st, index, role, s2);
    TitleAndDates(s2, role, s4);
    LocationSkipped(s4, role);
    FieldsJoin(st, two, more, LocationLines(role));
    FieldLinesSplit(index, role);
  }

  lemma FieldLinesSplit(index: nat, role: Role)
    ensures FieldLines(index, role)
            == ["Role span_id=" + RoleSpan(index), "Employer: " + Strip(role.employer)]
               + ["Title: " + Strip(role.title), "Dates: " + DateText(role)]
               + LocationLines(role)
  {
  }

  lemma FieldsJoin(st: Collected, a: seq<string>, b: seq<string>, c: seq<string>)
    ensures ParseLines(st, a + b + c) == ParseLines(ParseLines(ParseLines(st, a), b), c)
  {
    ParseLinesAppend(st, a, b);
    ParseLinesAppend(st, a + b, c);
  }

  lemma RoleReadsBack(st: Collected, index: nat, role: Role)
    requires Printable(role)
    ensures ParseLines(st, RoleLines(index, role)) == AddRole(st, index, role)
  {
    var s2 := TakeEmployer(st.(currentSpan := RoleSpan(index)), Strip(role.employer));
    var s4 := TakeDates(TakeTitle(s2, Strip(role.title)), Strip(DateText(role)));
    FieldsReadBack(st, index, role, s4);
    BulletsReadBack(s4, index, role.bullets);
    FieldsJoin(st, FieldLines(index, role), BulletLines(index, role.bullets), [""]);
    BlankLineSkipped(AddBullets(s4, index, role.bullets));
  }

  lemma BlankLineSkipped(st: Collected)
    ensures ParseLines(st, [""]) == st
  {
    ParseOneMore(st, [], st, "", st);
    assert [] + [""] == [""];
  }

  lemma {:induction false} HistoryReadsBack(st: Collected, history: History)
    requires forall r :: r in history ==> Printable(r)
    ensures ParseLines(st, HistoryLines(history)) == AddHistory(st, history)
  {
    if history != [] {
      var n := |history| - 1;
      HistoryReadsBack(st, history[..n]);
      ParseLinesAppend(st, HistoryLines(history[..n]), RoleLines(n, history[n]));
      RoleReadsBack(AddHistory(st, history[..n]), n, history[n]);
    }
  }

  lemma {:induction false} BulletLinesAreSingle(index: nat, bullets: seq<Bullet>)
    requires forall b :: b in bullets ==> PrintableBullet(b)
    ensures SingleLines(BulletLines(index, bullets))
  {
    if bullets != [] {
      var j := |bullets| - 1;
      BulletLinesAreSingle(index, bullets[..j]);
      SpanIsPlain(index, j, bullets[j]);
    }
  }

  lemma SingleAppend(a: string, b: string)
    requires SingleLine(a) && SingleLine(b)
    ensures SingleLine(a + b)
  {
  }

  lemma DateTextIsSingle(role: Role)
    requires SingleLine(Strip(role.start)) && SingleLine(Strip(role.end))
    ensures SingleLine(DateText(role))
  {
    assert SingleLine(PrintedEnd(role));
    assert SingleLine(" " + EN_DASH + " ");
    SingleAppend(" " + EN_DASH + " ", PrintedEnd(role));
    SingleAppend(Strip(role.start), " " + EN_DASH + " " + PrintedEnd(role));
    assert Strip(role.start) + (" " + EN_DASH + " " + PrintedEnd(role)) == DateText(role);
  }

  lemma RoleLineIsSingle(index: nat)
    ensures SingleLine("Role span_id=" + RoleSpan(index))
  {
    DecimalIsDigits(index);
    SingleAppend("wh:", Decimal(index));
    SingleAppend("Role span_id=", RoleSpan(index));
  }

  lemma MarkersAreSingle()
    ensures SingleLine("Employer: ") && SingleLine("Title: ") && SingleLine("Location: ") && SingleLine("Dates: ")
  {
  }

  lemma FieldLinesAreSingle(index: nat, role: Role)
    requires Printable(role)
    ensures SingleLines(FieldLines(index, role))
  {
    RoleLineIsSingle(index);
    MarkersAreSingle();
    SingleAppend("Employer: ", Strip(role.employer));
    SingleAppend("Title: ", Strip(role.title));
    SingleAppend("Location: ", Strip(role.location));
    DateTextIsSingle(role);
    SingleAppend("Dates: ", DateText(role));
    FourSingle("Role span_id=" + RoleSpan(index), "Employer: " + Strip(role.employer), "Title: " + Strip(role.title),
               "Dates: " + DateText(role), LocationLines(role));
  }

  lemma FourSingle(a: string, b: string, c: string, d: string, rest: seq<string>)
    requires SingleLine(a) && SingleLine(b) && SingleLine(c) && SingleLine(d) && SingleLines(rest)
    ensures SingleLines([a, b, c, d] + rest)
  {
  }

  lemma RoleLinesAreSingle(index: nat, role: Role)
    requires Printable(role)
    ensures SingleLines(RoleLines(index, role))
  {
    FieldLinesAreSingle(index, role);
    BulletLinesAreSingle(index, role.bullets);
    var lines := FieldLines(index, role) + BulletLines(index, role.bullets);
    forall l | l in RoleLines(index, role)
      ensures SingleLine(l)
    {
      assert l in lines || l == "";
    }
  }

  lemma {:induction false} HistoryLinesAreSingle(history: History)
    requires forall r :: r in history ==> Printable(r)
    ensures SingleLines(HistoryLines(history))
  {
    if history != [] {
      HistoryLinesAreSingle(history[..|history| - 1]);
      RoleLinesAreSingle(|history| - 1, history[|history| - 1]);
    }
  }

  /** Lines the parser passes over. */
  ghost predicate Skippable(lines: seq<string>) {
    forall i :: 0 <= i < |lines| ==> SingleLine(lines[i]) && forall st :: ParseLine(st, lines[i]) == st
  }

  predicate Ascii(s: string) {
    forall i :: 0 <= i < |s| ==> ' ' <= s[i] <= '~'
  }

  predicate NoMarker(line: string) {
    && (line != "" ==> line[0] != 'E' && line[0] != 'D' && line[0] != '-' && line[0] != ' ' && line[|line| - 1] != ' ')
    && (line != "" && line[0] == 'R' ==> |line| > 4 && line[4] == '-')
    && (line != "" && line[0] == 'T' ==> |line| > 1 && line[1] == 'h')
  }

  /** A plain line starts with no marker and has no blank at either end. */
  predicate PlainLine(line: string) {
    Ascii(line) && NoMarker(line)
  }

  lemma PlainLineSkipped(st: Collected, line: string)
    requires PlainLine(line)
    ensures ParseLine(st, line) == st && SingleLine(line)
  {
    assert Trimmed(line);
    TrimmedStrip(line);
  }

  lemma PlainAppend(a: string, b: string)
    requires PlainLine(a) && a != "" && Ascii(b) && b != "" && b[|b| - 1] != ' '
    ensures PlainLine(a + b)
  {
  }

  lemma AsciiAppend(a: string, b: string)
    requires Ascii(a) && Ascii(b)
    ensures Ascii(a + b)
  {
  }

  lemma SecondLineTail()
    ensures Ascii(" employers, titles, dates,")
  {
    AsciiAppend(" employers,", " titles, dates,");
    assert " employers," + " titles, dates," == " employers, titles, dates,";
  }

  lemma SecondLineIsPlain()
    ensures PlainLine("This block is the only" + " allowed source of" + " employers, titles, dates,")
  {
    SecondLineTail();
    PlainAppend("This block is the only", " allowed source of");
    PlainAppend("This block is the only" + " allowed source of", " employers, titles, dates,");
  }

  lemma ThirdLineTail()
    ensures Ascii(" span_id values on every claim.")
  {
    AsciiAppend(" span_id values", " on every claim.");
    assert " span_id values" + " on every claim." == " span_id values on every claim.";
  }

  lemma ThirdLineIsPlain()
    ensures PlainLine("numbers, and" + " accomplishments. Cite" + " span_id values on every claim.")
  {
    ThirdLineTail();
    PlainAppend("numbers, and", " accomplishments. Cite");
    PlainAppend("numbers, and" + " accomplishments. Cite", " span_id values on every claim.");
  }

  lemma FourthLineIsPlain()
    ensures PlainLine("Role-level facts" + " (employer, title, dates)" + " use span_id wh:{role}.")
  {
    PlainAppend("Role-level facts", " (employer, title, dates)");
    PlainAppend("Role-level facts" + " (employer, title, dates)", " use span_id wh:{role}.");
  }

  lemma FirstLineIsPlain()
    ensures PlainLine("CACHED_WORK_HISTORY_BEGIN") && PlainLine("")
  {
  }

  lemma FifthLineIsPlain()
    ensures PlainLine("Bullets use the span_id" + " shown in brackets.")
  {
    PlainAppend("Bullets use the span_id", " shown in brackets.");
  }

  lemma HeaderIsPlain()
    ensures forall i :: 0 <= i < |HEADER| ==> PlainLine(HEADER[i])
  {
    FirstLineIsPlain();
    FifthLineIsPlain();
    SecondLineIsPlain();
    ThirdLineIsPlain();
    FourthLineIsPlain();
  }

  lemma PlainLinesAreSkippable(lines: seq<string>)
    requires forall i :: 0 <= i < |lines| ==> PlainLine(lines[i])
    ensures Skippable(lines)
  {
    forall i, st | 0 <= i < |lines|
      ensures ParseLine(st, lines[i]) == st && SingleLine(lines[i])
    {
      PlainLineSkipped(st, lines[i]);
    }
  }

  lemma {:induction false} SkippedLines(st: Collected, lines: seq<string>)
    requires Skippable(lines)
    ensures ParseLines(st, lines) == st && SingleLines(lines)
  {
    if lines != [] {
      SkippedLines(st, lines[..|lines| - 1]);
      assert lines == lines[..|lines| - 1] + [lines[|lines| - 1]];
    }
  }

  lemma FooterIsSkippable()
    ensures Skippable([FOOTER]) && Skippable([NO_HISTORY, FOOTER])
  {
    assert PlainLine(FOOTER) && PlainLine(NO_HISTORY);
    PlainLinesAreSkippable([FOOTER]);
    PlainLinesAreSkippable([NO_HISTORY, FOOTER]);
  }

  lemma EmptyHistoryReadsBack(header: seq<string>)
    requires Skippable(header)
    ensures ParseLines(NOTHING, SplitLines(Block(header, []))) == NOTHING
  {
    var tail := [NO_HISTORY, FOOTER];
    FooterIsSkippable();
    SkippedLines(NOTHING, header);
    SkippedLines(NOTHING, tail);
    ParseLinesAppend(NOTHING, header, tail);
    SplitJoined(header + tail, "");
    assert Join("\n", header + tail) + "" == Join("\n", header + tail);
  }

  lemma BlockLines(header: seq<string>, middle: seq<string>)
    requires SingleLines(header) && SingleLines(middle)
    ensures SplitLines(RStrip(Join("\n", header + middle + [FOOTER])) + "\n") == header + middle + [FOOTER]
  {
    var lines := header + middle + [FOOTER];
    FooterIsSkippable();
    forall l | l in lines
      ensures SingleLine(l)
    {
      assert l in header || l in middle || l == FOOTER;
    }
    JoinEndsWith(lines);
    assert RStrip(Join("\n", lines)) == Join("\n", lines);
    SplitJoined(lines, "\n");
  }

  lemma BlockReadsBack(header: seq<string>, history: History)
    requires Skippable(header) && history != [] && forall r :: r in history ==> Printable(r)
    ensures ParseLines(NOTHING, SplitLines(Block(header, history))) == AddHistory(NOTHING, history)
  {
    var middle := HistoryLines(history);
    var st := AddHistory(NOTHING, history);
    SkippedLines(NOTHING, header);
    HistoryLinesAreSingle(history);
    BlockLines(header, middle);
    HistoryReadsBack(NOTHING, history);
    ParseLinesAppend(NOTHING, header, middle);
    ParseLinesAppend(NOTHING, header + middle, [FOOTER]);
    FooterIsSkippable();
    SkippedLines(st, [FOOTER]);
  }

  /** The parser reads back from the printed block exactly what the roles hold. */
  lemma RoundTrip(history: History)
    requires forall r :: r in history ==> Printable(r)
    ensures ParseLines(NOTHING, SplitLines(Render(history))) == AddHistory(NOTHING, history)
  {
    HeaderIsPlain();
    PlainLinesAreSkippable(HEADER);
    if history == [] {
      EmptyHistoryReadsBack(HEADER);
    } else {
      BlockReadsBack(HEADER, history);
    }
  }
}
