/** The whole script: the label columns, the composition loop, the taxon
    columns, the three score columns and the diversity index, filled into the
    table column by column in that order, all from one generator. */
module Simulation {
  import opened Draws
  import opened Labels
  import opened Composition
  import opened Scores

  /** The floating-point steps the model leaves abstract: rounding to two
      decimals (taxon columns), rounding to one decimal (diversity index) and
      the base-2 Shannon entropy of a composition. */
  datatype Numerics = Numerics(round2: real -> real, round1: real -> real, entropy2: seq<real> -> real)

  /** The finished table, as columns; taxa[c][i] is taxon c of sample i. */
  datatype Dataset = Dataset(
    sampleId: seq<string>,
    patientId: seq<string>,
    site: seq<Site>,
    taxa: seq<seq<real>>,
    acantholysis: seq<int>,
    inflammation: seq<int>,
    pdai: seq<int>,
    shannon: seq<real>)

  /** Lesional diversity is damped to 70 percent; non-lesional is kept. */
  function ShannonScale(site: Site): (f: real)
    ensures 0.0 < f <= 1.0
    ensures f < 1.0 <==> site == L
  {
    if site == L then 0.7 else 1.0
  }

  /** The five taxon columns: column c holds taxon c of every row, rounded. */
  function Taxa(asvData: seq<seq<real>>, num: Numerics): (taxa: seq<seq<real>>)
    requires forall i :: 0 <= i < |asvData| ==> |asvData[i]| == |TaxonNames|
    ensures |taxa| == |TaxonNames|
    ensures forall c :: 0 <= c < |TaxonNames| ==> |taxa[c]| == |asvData|
    ensures forall c, i :: 0 <= c < |TaxonNames| && 0 <= i < |asvData| ==>
      taxa[c][i] == num.round2(asvData[i][c])
  {
    seq(|TaxonNames|, c requires 0 <= c < |TaxonNames| => TaxonColumn(asvData, c, num))
  }

  /** Taxon c of every row, rounded for the table. */
  function TaxonColumn(asvData: seq<seq<real>>, c: nat, num: Numerics): seq<real>
    requires forall i :: 0 <= i < |asvData| ==> c < |asvData[i]|
  {
    seq(|asvData|, i requires 0 <= i < |asvData| => num.round2(asvData[i][c]))
  }

  /** The diversity index of every row, from the unrounded composition. */
  function ShannonColumn(asvData: seq<seq<real>>, sites: seq<Site>, num: Numerics): seq<real>
    requires |asvData| == |sites|
  {
    seq(|sites|, i requires 0 <= i < |sites| => ShannonIndex(asvData[i], sites[i], num))
  }

  /** The diversity index of one row: the entropy of its unrounded
      composition, scaled by the site's factor, rounded for the table. */
  function ShannonIndex(row: seq<real>, site: Site, num: Numerics): real {
    num.round1(num.entropy2(row) * ShannonScale(site))
  }

  /** Tape values one run of n samples reads: five per composition, then one
      per sample for each of the three scores. */
  function TapeUse(n: nat): nat {
    8 * n
  }

  /** Every call into the generator, in the order the script makes them. */
  function DrawOrder(sites: seq<Site>): seq<Call> {
    CompositionCalls(sites) + ScoreCalls(Acantholysis, sites)
      + ScoreCalls(Inflammation, sites) + ScoreCalls(Pdai, sites)
  }

  /** The table a run of n samples produces from a generator at tape position start. */
  function Expected(t: Tape, start: nat, n: nat, num: Numerics): Dataset
    requires UnitTape(t)
  {
    var sites := SiteColumn(n);
    var asvData := AsvRows(t, start, sites);
    var scoreStart := start + 5 * n;
    Dataset(
      SampleIdColumn(n),
      PatientIdColumn(n),
      sites,
      Taxa(asvData, num),
      ScoreColumn(t, scoreStart, Acantholysis, sites),
      ScoreColumn(t, scoreStart + n, Inflammation, sites),
      ScoreColumn(t, scoreStart + 2 * n, Pdai, sites),
      ShannonColumn(asvData, sites, num))
  }

  /** The script, from its label columns to its diversity index. */
  method Simulate(rng: Rng, num: Numerics) returns (data: Dataset)
    requires rng.Valid()
    modifies rng
    ensures rng.Valid()
    ensures data == Expected(rng.tape, old(rng.cursor), NSamples, num)
    ensures rng.cursor == old(rng.cursor) + TapeUse(NSamples)
    ensures rng.calls == old(rng.calls) + DrawOrder(SiteColumn(NSamples))
  {
    ghost var calls0 := rng.calls;
    var sampleIds := SampleIdColumn(NSamples);
    var patientIds := PatientIdColumn(NSamples);
    var sites := SiteColumn(NSamples);

    var asvData := GenerateAsvData(rng, sites);
    var taxa := Taxa(asvData, num);

    var acantholysis := DrawScoreColumn(rng, Acantholysis, sites);
    var inflammation := DrawScoreColumn(rng, Inflammation, sites);
    var pdai := DrawScoreColumn(rng, Pdai, sites);

    var shannon := ShannonColumn(asvData, sites, num);
    data := Dataset(sampleIds, patientIds, sites, taxa, acantholysis, inflammation, pdai, shannon);
    AppendFour(calls0, CompositionCalls(sites), ScoreCalls(Acantholysis, sites),
      ScoreCalls(Inflammation, sites), ScoreCalls(Pdai, sites));
  }

  lemma AppendFour<T>(s: seq<T>, a: seq<T>, b: seq<T>, c: seq<T>, d: seq<T>)
    ensures s + a + b + c + d == s + (a + b + c + d)
  {
  }

  /** The script makes six calls per sample: three for its composition and
      one for each score. */
  lemma DrawOrderLength(sites: seq<Site>)
    ensures |DrawOrder(sites)| == 6 * |sites|
  {
    CompositionCallsLength(sites);
  }

  /** The script's calls, by position: sample i's two uniform draws and its
      split at 3i, 3i + 1 and 3i + 2, before any score is drawn. */
  lemma DrawOrderAt(sites: seq<Site>, i: nat)
    requires i < |sites|
    ensures |DrawOrder(sites)| == 6 * |sites|
    ensures DrawOrder(sites)[3 * i] == Call.Uniform(StaphRange(sites[i]).low, StaphRange(sites[i]).high)
    ensures DrawOrder(sites)[3 * i + 1] == Call.Uniform(PropRange(sites[i]).low, PropRange(sites[i]).high)
    ensures DrawOrder(sites)[3 * i + 2] == FlatDirichlet(3)
  {
    CompositionCallsAt(sites, i);
    var comp := CompositionCalls(sites);
    var order := DrawOrder(sites);
    assert order[..3 * |sites|] == comp;
    assert order[3 * i] == comp[3 * i .. 3 * i + 3][0];
    assert order[3 * i + 1] == comp[3 * i .. 3 * i + 3][1];
    assert order[3 * i + 2] == comp[3 * i .. 3 * i + 3][2];
  }

  /** After the compositions come the score draws: one integer draw per
      sample for acantholysis, all of them, then for inflammation, then for
      PDAI, each from the range for the sample's site. */
  lemma ScoreDrawOrderAt(sites: seq<Site>, i: nat)
    requires i < |sites|
    ensures |DrawOrder(sites)| == 6 * |sites|
    ensures DrawOrder(sites)[3 * |sites| + i] ==
      Call.RandInt(ScoreRange(Acantholysis, sites[i]).low, ScoreRange(Acantholysis, sites[i]).high)
    ensures DrawOrder(sites)[4 * |sites| + i] ==
      Call.RandInt(ScoreRange(Inflammation, sites[i]).low, ScoreRange(Inflammation, sites[i]).high)
    ensures DrawOrder(sites)[5 * |sites| + i] ==
      Call.RandInt(ScoreRange(Pdai, sites[i]).low, ScoreRange(Pdai, sites[i]).high)
  {
    var n := |sites|;
    CompositionCallsAt(sites, i);
    var rest := ScoreCalls(Acantholysis, sites) + ScoreCalls(Inflammation, sites) + ScoreCalls(Pdai, sites);
    assert DrawOrder(sites) == CompositionCalls(sites) + rest;
    assert DrawOrder(sites)[3 * n + i] == rest[i];
    assert DrawOrder(sites)[4 * n + i] == rest[n + i];
    assert DrawOrder(sites)[5 * n + i] == rest[2 * n + i];
  }

  /** The columns of a generated table all have one entry per sample, and
      there is one taxon column per taxon. */
  lemma ExpectedShape(t: Tape, start: nat, n: nat, num: Numerics)
    requires UnitTape(t)
    ensures var d := Expected(t, start, n, num);
      && |d.sampleId| == |d.patientId| == |d.site| == n
      && |d.acantholysis| == |d.inflammation| == |d.pdai| == |d.shannon| == n
      && |d.taxa| == |TaxonNames|
      && forall c :: 0 <= c < |TaxonNames| ==> |d.taxa[c]| == n
  {
  }

  /** The labels of row i of a generated table. */
  lemma ExpectedLabels(t: Tape, start: nat, n: nat, num: Numerics, i: nat)
    requires UnitTape(t) && i < n
    ensures var d := Expected(t, start, n, num);
      && d.sampleId[i] == SampleId(i) && d.patientId[i] == PatientId(i)
      && (d.site[i] == L <==> i % 2 == 0)
      && d.site[i].Code() == (if i % 2 == 0 then "L" else "NL")
  {
  }

  /** Each score of row i is drawn from its own tape position, within the
      range for the row's site: acantholysis after all compositions, then
      inflammation n positions later, then PDAI. */
  lemma ExpectedScores(t: Tape, start: nat, n: nat, num: Numerics, i: nat)
    requires UnitTape(t) && i < n
    ensures var d := Expected(t, start, n, num);
      && d.acantholysis[i] == ScoreAt(t, start + 5 * n + i, Acantholysis, SiteOf(i))
      && d.inflammation[i] == ScoreAt(t, start + 5 * n + n + i, Inflammation, SiteOf(i))
      && d.pdai[i] == ScoreAt(t, start + 5 * n + 2 * n + i, Pdai, SiteOf(i))
      && ScoreRange(Acantholysis, SiteOf(i)).Contains(d.acantholysis[i])
      && ScoreRange(Inflammation, SiteOf(i)).Contains(d.inflammation[i])
      && ScoreRange(Pdai, SiteOf(i)).Contains(d.pdai[i])
  {
    var sites := SiteColumn(n);
    var scoreStart := start + 5 * n;
    var d := Expected(t, start, n, num);
    assert sites[i] == SiteOf(i);
    assert d.acantholysis == ScoreColumn(t, scoreStart, Acantholysis, sites);
    assert d.inflammation == ScoreColumn(t, scoreStart + n, Inflammation, sites);
    assert d.pdai == ScoreColumn(t, scoreStart + 2 * n, Pdai, sites);
  }

  /** The composition of row i is drawn from its own five tape values: five
      entries summing to one, with the markers in their site's ranges. */
  lemma ExpectedComposition(t: Tape, start: nat, n: nat, num: Numerics, i: nat)
    requires UnitTape(t) && i < n
    ensures var d := Expected(t, start, n, num);
      var row := RowAt(t, start + 5 * i, SiteOf(i));
      && AsvRows(t, start, SiteColumn(n))[i] == row
      && |row| == |TaxonNames| && Sum(row) == 1.0
      && StaphRange(d.site[i]).Contains(row[0]) && PropRange(d.site[i]).Contains(row[1])
  {
    var sites := SiteColumn(n);
    RowAtBounds(t, start + 5 * i, SiteOf(i));
    assert sites[i] == SiteOf(i);
    assert Expected(t, start, n, num).site == sites;
  }

  /** The taxon columns of row i are the rounded, non-negative entries of its
      composition, in taxon order. */
  lemma ExpectedTaxa(t: Tape, start: nat, n: nat, num: Numerics, i: nat)
    requires UnitTape(t) && i < n
    ensures var d := Expected(t, start, n, num);
      var row := RowAt(t, start + 5 * i, SiteOf(i));
      forall c :: 0 <= c < |TaxonNames| ==> row[c] >= 0.0 && d.taxa[c][i] == num.round2(row[c])
  {
    RowAtBounds(t, start + 5 * i, SiteOf(i));
    assert AsvRows(t, start, SiteColumn(n))[i] == RowAt(t, start + 5 * i, SiteOf(i));
  }

  /** The diversity index of row i comes from its unrounded composition, not
      from the rounded taxon columns, scaled by 0.7 on lesional skin and kept
      on non-lesional skin. */
  lemma ExpectedShannon(t: Tape, start: nat, n: nat, num: Numerics, i: nat)
    requires UnitTape(t) && i < n
    ensures var d := Expected(t, start, n, num);
      var row := RowAt(t, start + 5 * i, SiteOf(i));
      d.shannon[i] == ShannonIndex(row, SiteOf(i), num)
  {
    var sites := SiteColumn(n);
    var asvData := AsvRows(t, start, sites);
    assert asvData[i] == RowAt(t, start + 5 * i, SiteOf(i));
    assert sites[i] == SiteOf(i);
    assert Expected(t, start, n, num).shannon == ShannonColumn(asvData, sites, num);
  }

  /** The configured run: 150 rows, 75 of each site, 75 patients of two
      samples each, sample identifiers all different, and 8 tape values and 6
      generator calls per sample. */
  lemma ConfiguredRun(t: Tape, start: nat, num: Numerics)
    requires UnitTape(t)
    ensures var d := Expected(t, start, NSamples, num);
      && |d.site| == NSamples == 150
      && multiset(d.site)[L] == 75 && multiset(d.site)[NL] == 75
      && |Elements(d.patientId)| == NPatients
      && (forall i :: 0 <= i < NSamples ==> multiset(d.patientId)[d.patientId[i]] == 2)
      && (forall i, j :: 0 <= i < j < NSamples ==> d.sampleId[i] != d.sampleId[j])
      && |DrawOrder(d.site)| == 6 * NSamples
  {
    var d := Expected(t, start, NSamples, num);
    ConfiguredTable();
    forall i | 0 <= i < NSamples
      ensures multiset(d.patientId)[d.patientId[i]] == 2
    {
      PatientHasTwoSamples(NSamples, i);
    }
    forall i, j | 0 <= i < j < NSamples
      ensures d.sampleId[i] != d.sampleId[j]
    {
      SampleIdsDistinct(NSamples, i, j);
    }
    DrawOrderAt(d.site, 0);
  }
}
