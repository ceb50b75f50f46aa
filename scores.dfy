/** The three histopathological and clinical score columns. Each is a
    comprehension over the Site column that draws one integer per sample from
    a site-dependent half-open range; the columns are drawn one after the
    other, after all compositions. */
module Scores {
  import opened Draws
  import opened Labels

  datatype Score = Acantholysis | Inflammation | Pdai

  /** A half-open range [low, high) of integers, as the generator's integer
      draw takes it. */
  datatype IntRange = IntRange(low: int, high: int) {
    predicate Contains(k: int) {
      low <= k < high
    }
  }

  /** The range a score is drawn from at a site; never empty. */
  function ScoreRange(score: Score, site: Site): (r: IntRange)
    ensures r.low < r.high
  {
    match (score, site)
    case (Acantholysis, L) => IntRange(3, 6)
    case (Acantholysis, NL) => IntRange(0, 2)
    case (Inflammation, L) => IntRange(2, 4)
    case (Inflammation, NL) => IntRange(0, 2)
    case (Pdai, L) => IntRange(18, 26)
    case (Pdai, NL) => IntRange(8, 13)
  }

  /** For every score the non-lesional range lies wholly below the lesional
      one, so the two ranges are disjoint. */
  lemma ScoreRangesDisjoint(score: Score)
    ensures ScoreRange(score, NL).high <= ScoreRange(score, L).low
    ensures forall v :: !(ScoreRange(score, NL).Contains(v) && ScoreRange(score, L).Contains(v))
  {
  }

  /** The score of a sample at a site drawn from tape position k. */
  function ScoreAt(t: Tape, k: nat, score: Score, site: Site): (v: int)
    requires UnitTape(t)
    ensures ScoreRange(score, site).Contains(v)
  {
    RandIntDraw(ScoreRange(score, site).low, ScoreRange(score, site).high, t(k))
  }

  /** The closed bounds of each score per site. */
  lemma ScoreBounds(t: Tape, k: nat, site: Site)
    requires UnitTape(t)
    ensures site == L ==> 3 <= ScoreAt(t, k, Acantholysis, site) <= 5
    ensures site == NL ==> 0 <= ScoreAt(t, k, Acantholysis, site) <= 1
    ensures site == L ==> 2 <= ScoreAt(t, k, Inflammation, site) <= 3
    ensures site == NL ==> 0 <= ScoreAt(t, k, Inflammation, site) <= 1
    ensures site == L ==> 18 <= ScoreAt(t, k, Pdai, site) <= 25
    ensures site == NL ==> 8 <= ScoreAt(t, k, Pdai, site) <= 12
  {
  }

  /** Whatever the draws, a lesional sample scores strictly higher than a
      non-lesional one on every score. */
  lemma LesionalScoresHigher(t: Tape, k: nat, k': nat, score: Score)
    requires UnitTape(t)
    ensures ScoreAt(t, k, score, L) > ScoreAt(t, k', score, NL)
  {
    ScoreRangesDisjoint(score);
  }

  /** A score column whose draws start at tape position start. */
  function ScoreColumn(t: Tape, start: nat, score: Score, sites: seq<Site>): seq<int>
    requires UnitTape(t)
  {
    seq(|sites|, i requires 0 <= i < |sites| => ScoreAt(t, start + i, score, sites[i]))
  }

  /** The calls a score column makes: one integer draw per sample. */
  function ScoreCalls(score: Score, sites: seq<Site>): seq<Call> {
    seq(|sites|, i requires 0 <= i < |sites| =>
      Call.RandInt(ScoreRange(score, sites[i]).low, ScoreRange(score, sites[i]).high))
  }

  lemma ScoreColumnExtend(t: Tape, start: nat, score: Score, sites: seq<Site>, i: nat)
    requires UnitTape(t) && i < |sites|
    ensures ScoreColumn(t, start, score, sites[..i + 1]) ==
      ScoreColumn(t, start, score, sites[..i]) + [ScoreAt(t, start + i, score, sites[i])]
    ensures ScoreCalls(score, sites[..i + 1]) == ScoreCalls(score, sites[..i]) +
      [Call.RandInt(ScoreRange(score, sites[i]).low, ScoreRange(score, sites[i]).high)]
  {
    assert sites[..i + 1][..i] == sites[..i];
  }

  /** The comprehension that fills a score column, site by site in order. */
  method DrawScoreColumn(rng: Rng, score: Score, sites: seq<Site>) returns (column: seq<int>)
    requires rng.Valid()
    modifies rng
    ensures rng.Valid()
    ensures column == ScoreColumn(rng.tape, old(rng.cursor), score, sites)
    ensures rng.cursor == old(rng.cursor) + |sites|
    ensures rng.calls == old(rng.calls) + ScoreCalls(score, sites)
  {
    column := [];
    for i := 0 to |sites|
      invariant rng.Valid()
      invariant rng.cursor == old(rng.cursor) + i
      invariant rng.calls == old(rng.calls) + ScoreCalls(score, sites[..i])
      invariant column == ScoreColumn(rng.tape, old(rng.cursor), score, sites[..i])
    {
      ScoreColumnExtend(rng.tape, old(rng.cursor), score, sites, i);
      var range := ScoreRange(score, sites[i]);
      var v := rng.RandInt(range.low, range.high);
      column := column + [v];
    }
    assert sites[..|sites|] == sites;
  }
}
