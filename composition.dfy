/** The per-sample taxon composition: two marker abundances drawn from
    site-dependent intervals, and the rest of the unit mass split three ways
    by a flat Dirichlet draw. The loop that builds the list of rows reads the
    generator in sample order. */
module Composition {
  import opened Draws
  import opened Labels

  /** The taxa, in column order; the first two are the markers. */
  const TaxonNames: seq<string> :=
    ["Staphylococcus", "Propionibacterium", "Corynebacterium", "Streptococcus", "Lactobacillus"]

  /** A half-open interval [low, high) of reals. */
  datatype Interval = Interval(low: real, high: real) {
    predicate Contains(x: real) {
      low <= x < high
    }
  }

  /** Where the first marker, Staphylococcus, is drawn from. */
  function StaphRange(site: Site): Interval {
    if site == L then Interval(0.45, 0.60) else Interval(0.15, 0.25)
  }

  /** Where the second marker, Propionibacterium, is drawn from. */
  function PropRange(site: Site): Interval {
    if site == L then Interval(0.04, 0.08) else Interval(0.25, 0.30)
  }

  function Sum(s: seq<real>): real {
    if s == [] then 0.0 else s[0] + Sum(s[1..])
  }

  lemma SumOfFive(s: seq<real>)
    requires |s| == 5
    ensures Sum(s) == s[0] + s[1] + s[2] + s[3] + s[4]
  {
    assert Sum(s[4..]) == s[4] by {
      assert s[4..][1..] == [];
    }
    assert Sum(s[3..]) == s[3] + Sum(s[4..]) by {
      assert s[3..][1..] == s[4..];
    }
    assert Sum(s[2..]) == s[2] + Sum(s[3..]) by {
      assert s[2..][1..] == s[3..];
    }
    assert Sum(s[1..]) == s[1] + Sum(s[2..]) by {
      assert s[1..][1..] == s[2..];
    }
  }

  /** The two markers, then the split scaled by the mass the markers leave. */
  function Assemble(staph: real, prop: real, split: seq<real>): seq<real>
    requires |split| == 3
  {
    var remaining := 1.0 - (staph + prop);
    [staph, prop] + [split[0] * remaining, split[1] * remaining, split[2] * remaining]
  }

  /** Entry by entry: the two markers, then each split share times the mass
      the markers leave. */
  lemma AssembleEntries(staph: real, prop: real, split: seq<real>)
    requires |split| == 3
    ensures var row := Assemble(staph, prop, split);
      && |row| == 5 && row[0] == staph && row[1] == prop
      && row[2] == split[0] * (1.0 - (staph + prop))
      && row[3] == split[1] * (1.0 - (staph + prop))
      && row[4] == split[2] * (1.0 - (staph + prop))
  {
  }

  /** The three split entries add up to the split's total times the mass the
      markers leave. */
  lemma AssembleShape(staph: real, prop: real, split: seq<real>)
    requires |split| == 3
    ensures |Assemble(staph, prop, split)| == 5
    ensures Assemble(staph, prop, split)[0] == staph && Assemble(staph, prop, split)[1] == prop
    ensures Assemble(staph, prop, split)[2] + Assemble(staph, prop, split)[3] + Assemble(staph, prop, split)[4]
      == (split[0] + split[1] + split[2]) * (1.0 - (staph + prop))
  {
    AssembleEntries(staph, prop, split);
    Distribute(split[0], split[1], split[2], 1.0 - (staph + prop));
  }

  lemma Distribute(a: real, b: real, c: real, m: real)
    ensures a * m + b * m + c * m == (a + b + c) * m
  {
  }

  lemma TimesOne(x: real, m: real)
    requires x == 1.0
    ensures x * m == m
  {
  }

  /** In exact arithmetic a split that sums to one gives a row that sums to
      one, whatever the markers are: the split entries share out exactly the
      mass the markers leave. */
  lemma AssembleSumsToOne(staph: real, prop: real, split: seq<real>)
    requires |split| == 3 && split[0] + split[1] + split[2] == 1.0
    ensures |Assemble(staph, prop, split)| == 5
    ensures Assemble(staph, prop, split)[2] + Assemble(staph, prop, split)[3] + Assemble(staph, prop, split)[4]
      == 1.0 - (staph + prop)
    ensures Sum(Assemble(staph, prop, split)) == 1.0
  {
    AssembleEntries(staph, prop, split);
    AssembleShape(staph, prop, split);
    TimesOne(split[0] + split[1] + split[2], 1.0 - (staph + prop));
    SumOfFive(Assemble(staph, prop, split));
  }

  /** Non-negative markers that leave a non-negative mass and a non-negative
      split give a non-negative row; a positive split and a positive remaining
      mass give positive split entries. */
  lemma AssembleNonNegative(staph: real, prop: real, split: seq<real>)
    requires |split| == 3 && split[0] >= 0.0 && split[1] >= 0.0 && split[2] >= 0.0
    requires staph >= 0.0 && prop >= 0.0 && staph + prop <= 1.0
    ensures forall j :: 0 <= j < |Assemble(staph, prop, split)| ==> Assemble(staph, prop, split)[j] >= 0.0
    ensures split[0] > 0.0 && split[1] > 0.0 && split[2] > 0.0 && staph + prop < 1.0 ==>
      forall j :: 2 <= j < |Assemble(staph, prop, split)| ==> Assemble(staph, prop, split)[j] > 0.0
  {
    var row := Assemble(staph, prop, split);
    var remaining := 1.0 - (staph + prop);
    AssembleEntries(staph, prop, split);
    ProductSigns(split[0], remaining);
    ProductSigns(split[1], remaining);
    ProductSigns(split[2], remaining);
    assert row[2] == split[0] * remaining && row[3] == split[1] * remaining && row[4] == split[2] * remaining;
    forall j | 0 <= j < |row|
      ensures row[j] >= 0.0
    {
      assert j == 0 || j == 1 || j == 2 || j == 3 || j == 4;
    }
    if split[0] > 0.0 && split[1] > 0.0 && split[2] > 0.0 && staph + prop < 1.0 {
      forall j | 2 <= j < |row|
        ensures row[j] > 0.0
      {
        assert j == 2 || j == 3 || j == 4;
      }
    }
  }

  /** The row of one sample whose draws start at tape position k: the two
      markers from the site's intervals, then the split of the mass they leave. */
  function RowAt(t: Tape, k: nat, site: Site): seq<real>
    requires UnitTape(t)
  {
    Assemble(UniformDraw(StaphRange(site).low, StaphRange(site).high, t(k)),
      UniformDraw(PropRange(site).low, PropRange(site).high, t(k + 1)),
      FlatDirichlet3(t(k + 2), t(k + 3), t(k + 4)))
  }

  /** Whatever the tape holds, a row has five entries, its markers lie in
      their site's intervals, it sums to one in exact arithmetic, and no entry
      is negative: the markers leave more than 0.32 of the mass on lesional
      skin and more than 0.45 on non-lesional skin, and every split entry is
      strictly positive. */
  lemma RowAtBounds(t: Tape, k: nat, site: Site)
    requires UnitTape(t)
    ensures var row := RowAt(t, k, site);
      && |row| == |TaxonNames|
      && StaphRange(site).Contains(row[0]) && PropRange(site).Contains(row[1])
      && Sum(row) == 1.0
      && (forall j :: 0 <= j < |row| ==> row[j] >= 0.0)
      && row[2] > 0.0 && row[3] > 0.0 && row[4] > 0.0
      && row[2] + row[3] + row[4] > (if site == L then 0.32 else 0.45)
  {
    var staph := UniformDraw(StaphRange(site).low, StaphRange(site).high, t(k));
    var prop := UniformDraw(PropRange(site).low, PropRange(site).high, t(k + 1));
    var split := FlatDirichlet3(t(k + 2), t(k + 3), t(k + 4));
    AssembleSumsToOne(staph, prop, split);
    AssembleNonNegative(staph, prop, split);
  }

  /** The rows of a run whose composition draws start at tape position start;
      each sample reads five tape values, two for the markers and three for the
      split. */
  function AsvRows(t: Tape, start: nat, sites: seq<Site>): (rows: seq<seq<real>>)
    requires UnitTape(t)
    ensures |rows| == |sites|
    ensures forall i :: 0 <= i < |rows| ==> |rows[i]| == |TaxonNames|
  {
    seq(|sites|, i requires 0 <= i < |sites| => RowAt(t, start + 5 * i, sites[i]))
  }

  /** The calls one sample makes: two uniform draws, then the split. */
  function SampleCalls(site: Site): seq<Call> {
    [ Call.Uniform(StaphRange(site).low, StaphRange(site).high),
      Call.Uniform(PropRange(site).low, PropRange(site).high),
      FlatDirichlet(3) ]
  }

  /** The calls the composition loop makes, sample after sample. */
  function CompositionCalls(sites: seq<Site>): seq<Call> {
    if sites == [] then []
    else CompositionCalls(sites[..|sites| - 1]) + SampleCalls(sites[|sites| - 1])
  }

  lemma CompositionCallsExtend(sites: seq<Site>, i: nat)
    requires i < |sites|
    ensures CompositionCalls(sites[..i + 1]) == CompositionCalls(sites[..i]) + SampleCalls(sites[i])
  {
    assert sites[..i + 1][..i] == sites[..i];
  }

  /** The composition loop makes three calls per sample. */
  lemma {:induction false} CompositionCallsLength(sites: seq<Site>)
    ensures |CompositionCalls(sites)| == 3 * |sites|
  {
    if sites != [] {
      CompositionCallsLength(sites[..|sites| - 1]);
    }
  }

  /** Sample i's three calls are calls 3i, 3i + 1 and 3i + 2 of the loop. */
  lemma {:induction false} CompositionCallsAt(sites: seq<Site>, i: nat)
    requires i < |sites|
    ensures |CompositionCalls(sites)| == 3 * |sites|
    ensures CompositionCalls(sites)[3 * i .. 3 * i + 3] == SampleCalls(sites[i])
  {
    var init := sites[..|sites| - 1];
    if i < |init| {
      CompositionCallsAt(init, i);
      assert init[i] == sites[i];
    } else if init != [] {
      CompositionCallsAt(init, 0);
    }
  }

  /** One pass of the composition loop: the two markers for the site, then
      the flat Dirichlet split of the mass they leave. */
  method DrawAsvs(rng: Rng, site: Site) returns (asvs: seq<real>)
    requires rng.Valid()
    modifies rng
    ensures rng.Valid()
    ensures asvs == RowAt(rng.tape, old(rng.cursor), site)
    ensures rng.cursor == old(rng.cursor) + 5
    ensures rng.calls == old(rng.calls) + SampleCalls(site)
  {
    if site == L {
      var staph := rng.Uniform(0.45, 0.60);
      var prop := rng.Uniform(0.04, 0.08);
      var split := rng.Dirichlet3();
      asvs := Assemble(staph, prop, split);
    } else {
      var staph := rng.Uniform(0.15, 0.25);
      var prop := rng.Uniform(0.25, 0.30);
      var split := rng.Dirichlet3();
      asvs := Assemble(staph, prop, split);
    }
  }

  /** The composition loop: one row per site, appended in sample order. */
  method GenerateAsvData(rng: Rng, sites: seq<Site>) returns (asvData: seq<seq<real>>)
    requires rng.Valid()
    modifies rng
    ensures rng.Valid()
    ensures asvData == AsvRows(rng.tape, old(rng.cursor), sites)
    ensures rng.cursor == old(rng.cursor) + 5 * |sites|
    ensures rng.calls == old(rng.calls) + CompositionCalls(sites)
  {
    ghost var t, start := rng.tape, rng.cursor;
    ghost var rows := AsvRows(t, start, sites);
    asvData := [];
    for i := 0 to |sites|
      invariant rng.Valid() && rng.tape == t
      invariant rng.cursor == start + 5 * i
      invariant rng.calls == old(rng.calls) + CompositionCalls(sites[..i])
      invariant asvData == rows[..i]
    {
      CompositionCallsExtend(sites, i);
      var asvs := DrawAsvs(rng, sites[i]);
      assert asvs == rows[i];
      assert rows[..i + 1] == rows[..i] + [asvs];
      asvData := asvData + [asvs];
    }
    assert rows[..|sites|] == rows;
    assert sites[..|sites|] == sites;
  }
}
