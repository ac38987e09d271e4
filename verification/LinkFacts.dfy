/**
 The two-tier decision and its calibration, said without the functions that compute them: who wins, what a
 sweep row counts, what its safety protects and which row of a sweep comes first.
 */
module LinkFacts {
  import opened Wrappers
  import opened Seqs
  import opened LinkDecision

  /** At or above the high cutoff, or at or above the low one and ahead of the second by the margin. */
  ghost predicate Clears(best: real, second: Bound, p: Params) {
    best >= p.high || (best >= p.threshold && (second.Fin? ==> best - second.value >= p.margin))
  }

  lemma DecideIff(best: real, second: Bound, p: Params)
    ensures Decide(best, second, p) <==> Clears(best, second, p)
  {
  }

  // ---------------------------------------------------------------- the winner

  /** Ahead of all others in score, or level and with a smaller id. */
  ghost predicate IsBest(s: seq<Scored>, x: Scored) {
    x in s && forall y :: y in s ==> y.score < x.score || (y.score == x.score && x.id <= y.id)
  }

  ghost predicate LeadsAll(s: seq<Scored>, x: Scored, margin: real) {
    forall y :: y in s && y != x ==> x.score - y.score >= margin
  }

  lemma BestIsFirst(s: seq<Scored>, x: Scored)
    requires IsBest(s, x)
    ensures |Sort(RanksBefore, s)| == |s| && Sort(RanksBefore, s)[0] == x
  {
    RanksBeforeIsOrder();
    SortHead(RanksBefore, s);
  }

  lemma FirstIsBest(s: seq<Scored>)
    requires s != []
    ensures |Sort(RanksBefore, s)| == |s| && IsBest(s, Sort(RanksBefore, s)[0])
  {
    RanksBeforeIsOrder();
    SortHead(RanksBefore, s);
    var x := Sort(RanksBefore, s)[0];
    forall y | y in s
      ensures y.score < x.score || (y.score == x.score && x.id <= y.id)
    {
      assert RanksBefore(x, y);
    }
  }

  /** The second of the ranking is the closest to the first, so the margin to it is the margin to all. */
  lemma SecondIsClosest(s: seq<Scored>, x: Scored, margin: real)
    requires DistinctIds(s) && IsBest(s, x)
    ensures var second := SecondOf(Sort(RanksBefore, s));
            (second.Fin? ==> x.score - second.value >= margin) <==> LeadsAll(s, x, margin)
  {
    BestIsFirst(s, x);
    var ranked := Sort(RanksBefore, s);
    var k: nat :| k < |s| && s[k] == x;
    if |s| > 1 {
      RanksBeforeIsOrder();
      forall y | y in s && y != x
        ensures ranked[1].score >= y.score
      {
        var i: nat :| i < |s| && s[i] == y;
        IndexInMultiset(s, k, i);
        SortSecond(RanksBefore, s, y);
      }
      IndexInMultiset(s, k, if k == 0 then 1 else 0);
      SortSecond(RanksBefore, s, s[if k == 0 then 1 else 0]);
      var i := MultisetIndex(s, k, ranked[1]);
      assert s[i] in s && s[i] != x;
    } else {
      assert forall y :: y in s ==> y == x;
    }
  }

  /**
   The winner, if any, is the best candidate, the least id among the best-scored; and there is one exactly
   when that candidate reaches the high cutoff, or the low one with the margin to every other.
   */
  lemma WinnerIff(s: seq<Scored>, p: Params, x: Scored)
    requires DistinctIds(s)
    ensures SemanticWinner(s, p) == Some(x) <==>
              IsBest(s, x) && (x.score >= p.high || (x.score >= p.threshold && LeadsAll(s, x, p.margin)))
  {
    if s != [] {
      FirstIsBest(s);
      var first := Sort(RanksBefore, s)[0];
      SecondIsClosest(s, first, p.margin);
      if IsBest(s, x) {
        BestIsFirst(s, x);
      }
    }
  }

  // ---------------------------------------------------------------- a sweep row

  /** This span links under these cutoffs. */
  ghost predicate Linked(s: Span, p: Params) {
    Clears(s.best, s.second, p)
  }

  /** It links to its gold concept, or it does not link and its best candidate is not the gold one. */
  ghost predicate Right(s: Span, p: Params) {
    Linked(s, p) <==> s.gold == Some(s.bestId)
  }

  ghost function Where(spans: seq<Span>, holds: Span -> bool): set<nat> {
    set i | 0 <= i < |spans| && holds(spans[i])
  }

  lemma OneMoreSpan(front: seq<Span>, last: Span, holds: Span -> bool)
    ensures |Where(front + [last], holds)| == |Where(front, holds)| + if holds(last) then 1 else 0
  {
    if holds(last) {
      assert Where(front + [last], holds) == Where(front, holds) + {|front|};
    } else {
      assert Where(front + [last], holds) == Where(front, holds);
    }
  }

  ghost function RightLink(p: Params): Span -> bool {
    (s: Span) => Linked(s, p) && s.gold == Some(s.bestId)
  }

  ghost function WrongLink(p: Params): Span -> bool {
    (s: Span) => Linked(s, p) && s.gold != Some(s.bestId)
  }

  ghost function Miss(p: Params): Span -> bool {
    (s: Span) => !Linked(s, p) && s.gold.Some?
  }

  /** A row counts the spans that link to their gold concept, that link elsewhere, and that miss their gold one. */
  lemma {:induction false} RowCounts(spans: seq<Span>, p: Params)
    ensures RowOf(spans, p).params == p
    ensures RowOf(spans, p).trueLinks == |Where(spans, RightLink(p))|
    ensures RowOf(spans, p).falseLinks == |Where(spans, WrongLink(p))|
    ensures RowOf(spans, p).missed == |Where(spans, Miss(p))|
  {
    if spans != [] {
      var front, last := spans[..|spans| - 1], spans[|spans| - 1];
      RowCounts(front, p);
      assert spans == front + [last];
      OneMoreSpan(front, last, RightLink(p));
      OneMoreSpan(front, last, WrongLink(p));
      OneMoreSpan(front, last, Miss(p));
      DecideIff(last.best, last.second, p);
    }
  }

  /** While best score and margin move by less than a row's safety, every span decided right stays so. */
  lemma SafetyKeepsRight(spans: seq<Span>, p: Params, s: Span, best': real, second': Bound)
    requires s in spans && Right(s, p)
    requires Closer(best', s.best, RowOf(spans, p).safety)
    requires s.second.NegInf? <==> second'.NegInf?
    requires s.second.Fin? ==> Closer(best' - second'.value, s.best - s.second.value, RowOf(spans, p).safety)
    ensures Clears(best', second', p) <==> Linked(s, p)
  {
    DecideIff(s.best, s.second, p);
    DecideIff(best', second', p);
    SafetyProtects(spans, p, s, best', MarginOf(best', second'));
  }

  /** The cutoffs of a grid point, in hundredths. */
  ghost function AtPoint(t: nat, m: nat, h: nat): Params {
    Params(h as real / 100.0, t as real / 100.0, m as real / 100.0)
  }

  /** A sweep tries thresholds from 0.40 to 0.95, margins up to 0.20 and high cutoffs from the threshold to 0.98. */
  lemma SweepTries(rows: seq<SweepRow>, spans: seq<Span>, r: SweepRow)
    requires CoversGrid(rows, spans)
    ensures r in rows <==>
              exists t, m, h :: 40 <= t <= 95 && m <= 20 && t <= h <= 98 && r == RowOf(spans, AtPoint(t, m, h))
  {
    if r in rows {
      var t, m, h :| OnGrid(t, m, h) && r == RowOf(spans, GridParams(t, m, h));
      assert r == RowOf(spans, AtPoint(t, m, h));
    }
    if t, m, h :| 40 <= t <= 95 && m <= 20 && t <= h <= 98 && r == RowOf(spans, AtPoint(t, m, h)) {
      assert OnGrid(t, m, h) && AtPoint(t, m, h) == GridParams(t, m, h);
    }
  }

  /** No grid point has fewer false links than a sweep's first row, or as few and more true links or safety. */
  lemma FirstRowIsBest(rows: seq<SweepRow>, spans: seq<Span>, t: nat, m: nat, h: nat)
    requires CoversGrid(rows, spans) && Sorted(Better, rows) && rows != []
    requires 40 <= t <= 95 && m <= 20 && t <= h <= 98
    ensures var r := RowOf(spans, AtPoint(t, m, h));
            var first := rows[0];
            && r in rows
            && first.falseLinks <= r.falseLinks
            && (first.falseLinks == r.falseLinks ==> first.trueLinks >= r.trueLinks)
            && (first.falseLinks == r.falseLinks && first.trueLinks == r.trueLinks ==> first.safety >= r.safety)
  {
    assert OnGrid(t, m, h);
    var r := RowOf(spans, GridParams(t, m, h));
    assert r in rows;
    var i :| 0 <= i < |rows| && rows[i] == r;
    if i > 0 {
      assert Better(rows[0], rows[i]);
    }
  }
}
