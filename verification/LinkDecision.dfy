/**
 The two-tier link decision (app/skills/linker.py, app/skills/importers/reconcile.py) and the
 calibration of its cutoffs (scripts/calibrate_link_threshold.py). Scores are reals.
 */
module LinkDecision {
  import opened Wrappers
  import opened Seqs

  type Id = nat

  /** A score that may be float("-inf"). */
  datatype Bound = NegInf | Fin(value: real)

  datatype Scored = Scored(id: Id, score: real)

  datatype Params = Params(high: real, threshold: real, margin: real)

  /** best - second, which is float("inf") when there is no second. */
  datatype Margin = PosInf | Gap(value: real)

  function MarginOf(best: real, second: Bound): Margin {
    if second.NegInf? then PosInf else Gap(best - second.value)
  }

  predicate WideEnough(m: Margin, cutoff: real) {
    m.PosInf? || m.value >= cutoff
  }

  predicate Links(best: real, m: Margin, p: Params) {
    best >= p.high || (best >= p.threshold && WideEnough(m, p.margin))
  }

  predicate Decide(best: real, second: Bound, p: Params) {
    Links(best, MarginOf(best, second), p)
  }

  // ---------------------------------------------------------------- one pass against sorting

  predicate DistinctIds(s: seq<Scored>) {
    forall i, j :: 0 <= i < j < |s| ==> s[i].id != s[j].id
  }

  predicate IdOrder(s: seq<Scored>) {
    forall i, j :: 0 <= i < j < |s| ==> s[i].id < s[j].id
  }

  /** b is the first index with the greatest score, and second the greatest score elsewhere. */
  predicate IsTopTwo(s: seq<Scored>, b: nat, second: Bound) {
    && b < |s|
    && (forall i :: 0 <= i < |s| ==> s[i].score <= s[b].score)
    && (forall i :: 0 <= i < b ==> s[i].score < s[b].score)
    && (second.NegInf? <==> |s| == 1)
    && (second.Fin? ==>
          && (forall i :: 0 <= i < |s| && i != b ==> s[i].score <= second.value)
          && (exists i :: 0 <= i < |s| && i != b && s[i].score == second.value))
  }

  predicate Above(score: real, b: Bound) {
    b.NegInf? || score > b.value
  }

  /** The loop of _similarity_link and of score_spans. */
  method FindTopTwo(scored: seq<Scored>) returns (bestId: Option<Id>, best: Bound, second: Bound)
    ensures scored == [] ==> bestId == None && best == NegInf && second == NegInf
    ensures scored != [] ==> exists b: nat :: IsTopTwo(scored, b, second)
                                         && bestId == Some(scored[b].id) && best == Fin(scored[b].score)
  {
    bestId, best, second := None, NegInf, NegInf;
    ghost var b: nat := 0;
    for i := 0 to |scored|
      invariant i == 0 ==> bestId == None && best == NegInf && second == NegInf
      invariant i > 0 ==> IsTopTwo(scored[..i], b, second)
      invariant i > 0 ==> bestId == Some(scored[b].id) && best == Fin(scored[b].score)
    {
      var candidate := scored[i];
      ghost var prefix := scored[..i + 1];
      assert forall k :: 0 <= k < i ==> prefix[k] == scored[..i][k];
      assert prefix[i] == candidate;
      if Above(candidate.score, best) {
        if i > 0 {
          assert prefix[b].score == best.value;
        }
        second, best, bestId := best, Fin(candidate.score), Some(candidate.id);
        b := i;
      } else if Above(candidate.score, second) {
        second := Fin(candidate.score);
      } else {
        assert exists k :: 0 <= k < i && k != b && scored[..i][k].score == second.value;
      }
    }
    assert scored[..|scored|] == scored;
  }

  /** key=lambda item: (-score, id) */
  predicate RanksBefore(a: Scored, b: Scored) {
    a.score > b.score || (a.score == b.score && a.id <= b.id)
  }

  lemma RanksBeforeIsOrder()
    ensures TotalPreorder(RanksBefore) && Antisymmetric(RanksBefore)
  {
  }

  function SecondOf(ranked: seq<Scored>): Bound {
    if |ranked| > 1 then Fin(ranked[1].score) else NegInf
  }

  function SemanticWinner(candidates: seq<Scored>, p: Params): Option<Scored> {
    var ranked := Sort(RanksBefore, candidates);
    if ranked == [] then None
    else if Decide(ranked[0].score, SecondOf(ranked), p) then Some(ranked[0])
    else None
  }

  lemma IndexInMultiset<T>(s: seq<T>, b: nat, i: nat)
    requires b < |s| && i < |s| && i != b
    ensures s[i] in multiset(s) - multiset{s[b]}
  {
    assert s == s[..b] + [s[b]] + s[b + 1..];
    assert multiset(s) - multiset{s[b]} == multiset(s[..b] + s[b + 1..]);
    assert s[i] == (s[..b] + s[b + 1..])[if i < b then i else i - 1];
  }

  lemma MultisetIndex<T>(s: seq<T>, b: nat, x: T) returns (i: nat)
    requires b < |s| && x in multiset(s) - multiset{s[b]}
    ensures i < |s| && i != b && s[i] == x
  {
    assert s == s[..b] + [s[b]] + s[b + 1..];
    var rest := s[..b] + s[b + 1..];
    assert multiset(s) - multiset{s[b]} == multiset(rest);
    var j :| 0 <= j < |rest| && rest[j] == x;
    i := if j < b then j else j + 1;
  }

  lemma FirstRanked(s: seq<Scored>, b: nat, second: Bound) returns (k: nat)
    requires IsTopTwo(s, b, second)
    ensures |Sort(RanksBefore, s)| == |s|
    ensures k < |s| && s[k] == Sort(RanksBefore, s)[0] && s[k].score == s[b].score
    ensures forall i :: 0 <= i < |s| && s[i].score == s[b].score ==> s[k].id <= s[i].id
  {
    RanksBeforeIsOrder();
    SortHead(RanksBefore, s);
    k :| 0 <= k < |s| && s[k] == Sort(RanksBefore, s)[0];
    assert s[b] in s && RanksBefore(s[k], s[b]);
    forall i | 0 <= i < |s| && s[i].score == s[b].score
      ensures s[k].id <= s[i].id
    {
      assert s[i] in s && RanksBefore(s[k], s[i]);
    }
  }

  lemma SecondRanked(s: seq<Scored>, b: nat, second: Bound, k: nat)
    requires IsTopTwo(s, b, second) && |s| > 1
    requires |Sort(RanksBefore, s)| == |s|
    requires k < |s| && s[k] == Sort(RanksBefore, s)[0] && s[k].score == s[b].score
    ensures Fin(Sort(RanksBefore, s)[1].score) == second
  {
    RanksBeforeIsOrder();
    var ranked := Sort(RanksBefore, s);
    // The rest holds the runner-up of the loop: the second-best arrival, or the best if it is not first.
    var j: nat :| j < |s| && j != b && s[j].score == second.value;
    var other := if j == k then b else j;
    IndexInMultiset(s, k, other);
    SortSecond(RanksBefore, s, s[other]);
    var i := MultisetIndex(s, k, ranked[1]);
    assert s[i].score >= s[other].score;
    if k != b {
      IndexInMultiset(s, k, b);
      SortSecond(RanksBefore, s, s[b]);
      assert s[k].score <= second.value;
    }
  }

  /**
   Whatever order the candidates arrive in, the one-pass loop and the sort find the same best and
   second-best scores; and they name the same candidate exactly when the first best-scored arrival
   has the least id of the best-scored ones.
   */
  lemma OnePassEqualsSort(s: seq<Scored>, b: nat, second: Bound)
    requires IsTopTwo(s, b, second) && DistinctIds(s)
    ensures var ranked := Sort(RanksBefore, s);
            && |ranked| == |s|
            && ranked[0].score == s[b].score
            && SecondOf(ranked) == second
            && (ranked[0] == s[b] <==> forall i :: 0 <= i < |s| && s[i].score == s[b].score ==> s[b].id <= s[i].id)
  {
    var k := FirstRanked(s, b, second);
    if |s| > 1 {
      SecondRanked(s, b, second, k);
    }
    if forall i :: 0 <= i < |s| && s[i].score == s[b].score ==> s[b].id <= s[i].id {
      assert s[b].id <= s[k].id <= s[b].id;
    }
  }

  /** What the sort-based winner is, in terms of the loop's result. */
  lemma WinnerOfTopTwo(s: seq<Scored>, b: nat, second: Bound, p: Params)
    requires IsTopTwo(s, b, second) && DistinctIds(s)
    ensures SemanticWinner(s, p).Some? <==> Decide(s[b].score, second, p)
    ensures SemanticWinner(s, p).Some? && IdOrder(s) ==> SemanticWinner(s, p) == Some(s[b])
  {
    OnePassEqualsSort(s, b, second);
    if IdOrder(s) {
      forall i | 0 <= i < |s| && s[i].score == s[b].score
        ensures s[b].id <= s[i].id
      {
      }
    }
  }

  /** _similarity_link's decision on the loop's result. */
  method SimilarityLink(scored: seq<Scored>, p: Params) returns (link: Option<Id>)
    requires DistinctIds(scored)
    ensures var winner := SemanticWinner(scored, p);
            && (link.Some? <==> winner.Some?)
            && (IdOrder(scored) ==> link == if winner.Some? then Some(winner.value.id) else None)
  {
    var bestId, best, second := FindTopTwo(scored);
    if bestId.None? {
      return None;
    }
    ghost var b: nat :| IsTopTwo(scored, b, second) && bestId == Some(scored[b].id) && best == Fin(scored[b].score);
    WinnerOfTopTwo(scored, b, second, p);
    if best.value >= p.high {
      return bestId;
    }
    if best.value >= p.threshold && (second.NegInf? || best.value - second.value >= p.margin) {
      return bestId;
    }
    return None;
  }

  // ---------------------------------------------------------------- distance to a flip

  function MaxReal(a: real, b: real): real { if a >= b then a else b }
  function MinReal(a: real, b: real): real { if a <= b then a else b }

  /** _flip_distance; an infinite margin drops out of the min and of the max. */
  function FlipDistance(best: real, m: Margin, p: Params): real {
    if Links(best, m, p) then
      MaxReal(best - p.high,
              if m.PosInf? then best - p.threshold else MinReal(best - p.threshold, m.value - p.margin))
    else
      MinReal(p.high - best,
              if m.PosInf? then p.threshold - best else MaxReal(p.threshold - best, p.margin - m.value))
  }

  predicate Closer(a: real, b: real, bound: real) {
    -bound < a - b < bound
  }

  predicate CloserMargin(a: Margin, b: Margin, bound: real) {
    (a.PosInf? && b.PosInf?) || (a.Gap? && b.Gap? && Closer(a.value, b.value, bound))
  }

  /** Any change of the best score and of the margin by less than the flip distance keeps the decision. */
  lemma FlipDistanceIsSound(best: real, m: Margin, p: Params, best': real, m': Margin)
    requires Closer(best', best, FlipDistance(best, m, p))
    requires CloserMargin(m', m, FlipDistance(best, m, p))
    ensures Links(best', m', p) <==> Links(best, m, p)
  {
  }

  /**
   And no larger bound is safe: within any bound beyond the flip distance there is a best score that,
   with the second-best score left alone, flips the decision.
   */
  lemma FlipDistanceIsTight(best: real, second: Bound, p: Params, bound: real) returns (best': real)
    requires bound > FlipDistance(best, MarginOf(best, second), p)
    ensures Closer(best', best, bound)
    ensures CloserMargin(MarginOf(best', second), MarginOf(best, second), bound)
    ensures Decide(best', second, p) <==> !Decide(best, second, p)
    ensures FlipDistance(best, MarginOf(best, second), p) >= 0.0
  {
    var distance := FlipDistance(best, MarginOf(best, second), p);
    var shift := (distance + bound) / 2.0;
    best' := if Decide(best, second, p) then best - shift else best + shift;
  }

  // ---------------------------------------------------------------- the sweep

  /** A scored span that did not link exactly. */
  datatype Span = Span(gold: Option<Id>, bestId: Id, best: real, second: Bound)

  datatype SweepRow = SweepRow(params: Params, trueLinks: nat, falseLinks: nat, missed: nat, safety: real)

  predicate LinksSpan(s: Span, p: Params) {
    Decide(s.best, s.second, p)
  }

  predicate CorrectLink(s: Span, p: Params) {
    LinksSpan(s, p) && s.gold == Some(s.bestId)
  }

  predicate CorrectDecision(s: Span, p: Params) {
    CorrectLink(s, p) || (!LinksSpan(s, p) && s.gold != Some(s.bestId))
  }

  function TrueLinks(spans: seq<Span>, p: Params): nat {
    if spans == [] then 0
    else TrueLinks(spans[..|spans| - 1], p) + (if CorrectLink(spans[|spans| - 1], p) then 1 else 0)
  }

  function FalseLinks(spans: seq<Span>, p: Params): nat {
    if spans == [] then 0
    else FalseLinks(spans[..|spans| - 1], p)
         + (if LinksSpan(spans[|spans| - 1], p) && !CorrectLink(spans[|spans| - 1], p) then 1 else 0)
  }

  function Missed(spans: seq<Span>, p: Params): nat {
    if spans == [] then 0
    else Missed(spans[..|spans| - 1], p)
         + (if !LinksSpan(spans[|spans| - 1], p) && spans[|spans| - 1].gold.Some? then 1 else 0)
  }

  function SpanDistance(s: Span, p: Params): real {
    FlipDistance(s.best, MarginOf(s.best, s.second), p)
  }

  /** The least flip distance of the correct decisions; None while there is none. */
  function Slack(spans: seq<Span>, p: Params): Option<real> {
    if spans == [] then None
    else
      var rest, last := Slack(spans[..|spans| - 1], p), spans[|spans| - 1];
      if !CorrectDecision(last, p) then rest
      else if rest.None? then Some(SpanDistance(last, p))
      else Some(MinReal(rest.value, SpanDistance(last, p)))
  }

  function RowOf(spans: seq<Span>, p: Params): SweepRow {
    var slack := Slack(spans, p);
    SweepRow(p, TrueLinks(spans, p), FalseLinks(spans, p), Missed(spans, p), if slack.Some? then slack.value else 0.0)
  }

  lemma {:induction false} SlackIsLeast(spans: seq<Span>, p: Params)
    ensures forall s :: s in spans && CorrectDecision(s, p) ==>
              Slack(spans, p).Some? && Slack(spans, p).value <= SpanDistance(s, p)
    ensures Slack(spans, p).Some? ==>
              exists s :: s in spans && CorrectDecision(s, p) && SpanDistance(s, p) == Slack(spans, p).value
  {
    if spans != [] {
      var front, last := spans[..|spans| - 1], spans[|spans| - 1];
      SlackIsLeast(front, p);
      assert spans == front + [last];
      if Slack(spans, p).Some? {
        if CorrectDecision(last, p) && Slack(spans, p).value == SpanDistance(last, p) {
          assert last in spans;
        } else {
          var s :| s in front && CorrectDecision(s, p) && SpanDistance(s, p) == Slack(front, p).value;
          assert s in spans;
        }
      }
    }
  }

  /**
   A row's safety protects every correct decision of the row at once: no correct decision changes
   while each score moves by less than it. It is the best such bound: beyond it some correct decision
   can be flipped.
   */
  lemma SafetyProtects(spans: seq<Span>, p: Params, s: Span, best': real, m': Margin)
    requires s in spans && CorrectDecision(s, p)
    requires Closer(best', s.best, RowOf(spans, p).safety)
    requires CloserMargin(m', MarginOf(s.best, s.second), RowOf(spans, p).safety)
    ensures Links(best', m', p) <==> LinksSpan(s, p)
  {
    SlackIsLeast(spans, p);
    FlipDistanceIsSound(s.best, MarginOf(s.best, s.second), p, best', m');
  }

  lemma SafetyIsTight(spans: seq<Span>, p: Params, bound: real) returns (s: Span, best': real)
    requires exists s :: s in spans && CorrectDecision(s, p)
    requires bound > RowOf(spans, p).safety
    ensures s in spans && CorrectDecision(s, p) && Closer(best', s.best, bound)
    ensures Decide(best', s.second, p) <==> !LinksSpan(s, p)
  {
    SlackIsLeast(spans, p);
    s :| s in spans && CorrectDecision(s, p) && SpanDistance(s, p) == Slack(spans, p).value;
    best' := FlipDistanceIsTight(s.best, s.second, p, bound);
  }

  /** The grid in hundredths: thresholds 40..95, margins 0..20, high cutoffs threshold..98. */
  const THRESHOLD_LO: nat := 40
  const THRESHOLD_HI: nat := 95
  const MARGIN_HI: nat := 20
  const HIGH_HI: nat := 98

  predicate OnGrid(threshold: nat, margin: nat, high: nat) {
    THRESHOLD_LO <= threshold <= THRESHOLD_HI && margin <= MARGIN_HI && threshold <= high <= HIGH_HI
  }

  function GridParams(threshold: nat, margin: nat, high: nat): Params {
    Params(high as real / 100.0, threshold as real / 100.0, margin as real / 100.0)
  }

  /** key=(false_links, -true_links, -safety) */
  predicate Better(a: SweepRow, b: SweepRow) {
    || a.falseLinks < b.falseLinks
    || (a.falseLinks == b.falseLinks
        && (a.trueLinks > b.trueLinks || (a.trueLinks == b.trueLinks && a.safety >= b.safety)))
  }

  method ScoreRow(eligible: seq<Span>, p: Params) returns (row: SweepRow)
    ensures row == RowOf(eligible, p)
  {
    var trueLinks, falseLinks, missed := 0, 0, 0;
    var safety: Option<real> := None;
    for i := 0 to |eligible|
      invariant trueLinks == TrueLinks(eligible[..i], p)
      invariant falseLinks == FalseLinks(eligible[..i], p)
      invariant missed == Missed(eligible[..i], p)
      invariant safety == Slack(eligible[..i], p)
    {
      var span := eligible[i];
      assert eligible[..i + 1][..i] == eligible[..i];
      var linked := Decide(span.best, span.second, p);
      var correctLink := linked && span.gold == Some(span.bestId);
      if correctLink {
        trueLinks := trueLinks + 1;
      } else if linked {
        falseLinks := falseLinks + 1;
      } else if span.gold.Some? {
        missed := missed + 1;
      }
      if correctLink || (!linked && span.gold != Some(span.bestId)) {
        var distance := FlipDistance(span.best, MarginOf(span.best, span.second), p);
        safety := Some(if safety.Some? then MinReal(safety.value, distance) else distance);
      }
    }
    assert eligible[..|eligible|] == eligible;
    row := SweepRow(p, trueLinks, falseLinks, missed, if safety.Some? then safety.value else 0.0);
  }

  /** A grid row for every grid point and nothing else, best first. */
  ghost predicate CoversGrid(rows: seq<SweepRow>, eligible: seq<Span>) {
    && (forall r :: r in rows ==> exists t, m, h :: OnGrid(t, m, h) && r == RowOf(eligible, GridParams(t, m, h)))
    && (forall t, m, h :: OnGrid(t, m, h) ==> RowOf(eligible, GridParams(t, m, h)) in rows)
  }

  /** Point (t, m, h) comes before (t0, m0, h0) in the loop order. */
  predicate Visited(t: nat, m: nat, h: nat, t0: nat, m0: nat, h0: nat) {
    t < t0 || (t == t0 && (m < m0 || (m == m0 && h < h0)))
  }

  ghost predicate Covers(rows: seq<SweepRow>, eligible: seq<Span>, t0: nat, m0: nat, h0: nat) {
    && (forall r :: r in rows ==> exists t, m, h :: OnGrid(t, m, h) && r == RowOf(eligible, GridParams(t, m, h)))
    && (forall t, m, h :: OnGrid(t, m, h) && Visited(t, m, h, t0, m0, h0) ==>
          RowOf(eligible, GridParams(t, m, h)) in rows)
  }

  lemma CoversOneMore(rows: seq<SweepRow>, eligible: seq<Span>, t0: nat, m0: nat, h0: nat)
    requires OnGrid(t0, m0, h0) && Covers(rows, eligible, t0, m0, h0)
    ensures Covers(rows + [RowOf(eligible, GridParams(t0, m0, h0))], eligible, t0, m0, h0 + 1)
  {
    var rows' := rows + [RowOf(eligible, GridParams(t0, m0, h0))];
    forall r | r in rows'
      ensures exists t, m, h :: OnGrid(t, m, h) && r == RowOf(eligible, GridParams(t, m, h))
    {
      if r !in rows {
        assert OnGrid(t0, m0, h0) && r == RowOf(eligible, GridParams(t0, m0, h0));
      }
    }
    forall t, m, h | OnGrid(t, m, h) && Visited(t, m, h, t0, m0, h0 + 1)
      ensures RowOf(eligible, GridParams(t, m, h)) in rows'
    {
      if !Visited(t, m, h, t0, m0, h0) {
        assert rows'[|rows|] == RowOf(eligible, GridParams(t, m, h));
      }
    }
  }

  /**
   The sweep: its first row is the lexicographic optimum of the whole grid, fewest false links first,
   then most true links, then the widest safety.
   */
  method Sweep(eligible: seq<Span>) returns (results: seq<SweepRow>)
    ensures CoversGrid(results, eligible)
    ensures Sorted(Better, results)
    ensures results != []
    ensures forall t, m, h :: OnGrid(t, m, h) ==>
              results[0] == RowOf(eligible, GridParams(t, m, h))
                || Better(results[0], RowOf(eligible, GridParams(t, m, h)))
  {
    var rows: seq<SweepRow> := [];
    for t := THRESHOLD_LO to THRESHOLD_HI + 1
      invariant Covers(rows, eligible, t, 0, 0)
    {
      assert Covers(rows, eligible, t, 0, t);
      for m := 0 to MARGIN_HI + 1
        invariant Covers(rows, eligible, t, m, t)
      {
        for h := t to HIGH_HI + 1
          invariant Covers(rows, eligible, t, m, h)
        {
          var row := ScoreRow(eligible, GridParams(t, m, h));
          CoversOneMore(rows, eligible, t, m, h);
          rows := rows + [row];
        }
        assert Covers(rows, eligible, t, m + 1, t);
      }
      assert Covers(rows, eligible, t + 1, 0, 0);
    }
    assert CoversGrid(rows, eligible);
    results := Sort(Better, rows);
    SortMembers(Better, rows);
    SortSorted(Better, rows);
    assert OnGrid(40, 0, 40);
    assert RowOf(eligible, GridParams(40, 0, 40)) in results;
    forall t, m, h | OnGrid(t, m, h)
      ensures results[0] == RowOf(eligible, GridParams(t, m, h))
              || Better(results[0], RowOf(eligible, GridParams(t, m, h)))
    {
      var r := RowOf(eligible, GridParams(t, m, h));
      assert r in results;
      var k :| 0 <= k < |results| && results[k] == r;
    }
  }
}
