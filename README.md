# PVSim sample generator, modelled in Dafny

`sim.py` simulates a pemphigus-vulgaris skin-microbiome study: 150 samples, alternately
lesional (`L`) and non-lesional (`NL`) skin, two per patient. For each sample it draws a
five-taxon composition: two marker abundances (Staphylococcus, Propionibacterium) from
uniform ranges that depend on the site, then a flat Dirichlet split of the rest of the unit mass.
It then draws three integer scores (acantholysis, inflammation, PDAI) from site-dependent
ranges. Finally it computes a Shannon diversity index from the unrounded composition, damped
by a factor of 0.7 on lesional skin.

The model has six modules:

- `Decimal` (decimal.dfy): the decimal numeral of a natural number and its parser, for the identifiers.
- `Labels` (labels.dfy): the SampleID, PatientID and Site comprehensions as functions of the
  sample index, with lemmas on distinctness, pairing and per-site counts.
- `Draws` (draws.dfy): numpy's seeded global generator as a class `Rng`. It holds a tape of
  unit values in [0, 1), a cursor, and a log of the calls made. `Uniform(a, b)` returns
  `a + (b - a)·u`. `RandInt(lo, hi)` returns `lo + ⌊(hi - lo)·u⌋` and requires `lo < hi`.
  The flat three-way Dirichlet normalises three positive weights `1 - u`.
- `Composition` (composition.dfy): the loop that appends one composition row per sample,
  proved against the function `AsvRows` of the tape.
- `Scores` (scores.dfy): the score ranges and the comprehensions that draw each score column.
- `Simulation` (simulation.dfy): the whole script. `Simulate` fills the table column by column
  in the script's order. Its result equals `Expected`, a function of the tape, and its call log
  equals `DrawOrder`. The Site column holds `Site` values; `Site.Code` gives the literal "L" or
  "NL" the script writes.

Arithmetic is exact (`real`). The two roundings and the base-2 entropy are parameters
(`Numerics`). The model therefore fixes which values feed them, but not what they compute.

Notes on the code's ranges and order:
- the uniform ranges are half-open, [0.45, 0.60) and so on, not closed;
- the integer ranges are `randint(lo, hi)` = [lo, hi), i.e. [3, 5], [0, 1], [2, 3], [0, 1], [18, 25], [8, 12] closed;
- one pass of the composition loop (`DrawAsvs`) builds its row with `Assemble`, which computes `remaining` after the Dirichlet call rather than before it; nothing depends on that order;
- the sample count is the constant 150, so no run with an odd count exists to be guarded against.

## Model

| member | source | states |
|---|---|---|
| Decimal.Show | sim.py:16-17 | the numeral of n is non-empty, all digits, and has no leading zero unless n is 0 |
| Decimal.ParseShow | sim.py:16-17 | parsing the numeral of n gives back n |
| Decimal.ShowInjective | sim.py:16-17 | two numbers have the same numeral exactly when they are equal |
| Labels.Site.Code | sim.py:18 | the Site column code is "L" exactly for lesional and "NL" exactly for non-lesional |
| Labels.SampleIdsDistinct | sim.py:16 | SampleID of row i is "S" then the decimal of i+1, and two rows share a SampleID exactly when they are the same row |
| Labels.SamePatientIffPaired | sim.py:17 | two samples share a PatientID exactly when their indices agree after integer halving |
| Labels.PatientRowsBelow | sim.py:17 | among the first n rows, the patient of samples 2k and 2k+1 occurs 0, 1 or 2 times according to how many of 2k, 2k+1 are below n |
| Labels.PatientHasTwoSamples | sim.py:17 | in a table of even length every PatientID occurs exactly twice |
| Labels.NewPatientAt | sim.py:17 | the patient of sample m already occurs among earlier rows exactly when m is odd |
| Labels.DistinctPatients | sim.py:17 | n rows name (n+1)/2 distinct patients |
| Labels.SitesAlternate | sim.py:18 | Site is L exactly at even indices, and adjacent rows have different sites |
| Labels.SiteCounts | sim.py:18 | n rows hold (n+1)/2 L and n/2 NL sites |
| Labels.ConfiguredTable | sim.py:10-18 | with 150 samples: 75 L rows, 75 NL rows, and n_patients = 75 distinct PatientIDs |
| Draws.ScaleBound | sim.py:26-27 | a unit value times a positive width lies in [0, width) |
| Draws.Scale | sim.py:26-27 | a unit value scaled by a positive width lies in [0, width) |
| Draws.UniformDraw | sim.py:26-27 | a uniform draw with low < high lies in [low, high) |
| Draws.RandIntDraw | sim.py:45-47 | an integer draw of [low, high) lies in [low, high) |
| Draws.FlatDirichlet3 | sim.py:29 | the flat three-way Dirichlet draw has 3 strictly positive entries summing to 1 |
| Draws.Rng.constructor | sim.py:7 | seeding fixes the tape, with cursor 0 and an empty call log |
| Draws.Rng.Uniform | sim.py:26-27 | a uniform call returns the tape's next value mapped to [low, high), advances the cursor by 1 and logs the call |
| Draws.Rng.Dirichlet3 | sim.py:29 | a Dirichlet call returns the simplex point from the next three tape values, advances by 3, logs the call |
| Draws.Rng.RandInt | sim.py:45 | an integer call with low < high returns the next value mapped to [low, high), advances by 1 and logs the call |
| Composition.AssembleShape | sim.py:28-30 | the row is staph, prop, then three entries adding up to the split's total times remaining = 1 - (staph + prop) |
| Composition.AssembleSumsToOne | sim.py:28-30 | in exact arithmetic, a split summing to 1 gives a 5-entry row summing to 1, whatever the markers |
| Composition.AssembleNonNegative | sim.py:28-30 | non-negative markers with staph + prop <= 1 and a non-negative split give a non-negative row; a positive split and staph + prop < 1 give positive split entries |
| Composition.RowAtBounds | sim.py:25-36 | a sample's row has 5 entries; staph lies in [0.45,0.60) for L and [0.15,0.25) for NL; prop lies in [0.04,0.08) for L and [0.25,0.30) for NL; the row sums to 1; every entry is non-negative; remaining exceeds 0.32 for L and 0.45 for NL |
| Composition.DrawAsvs | sim.py:25-36 | one loop pass returns RowAt of the five tape values at the cursor (two uniforms, then the three values of the Dirichlet draw), advances by 5 and logs uniform, uniform, Dirichlet with the site's ranges |
| Composition.GenerateAsvData | sim.py:23-37 | the loop appends rows in sample order: the result is AsvRows of the tape from the starting cursor, the cursor moves by 5 per sample, and the log grows by CompositionCalls |
| Composition.CompositionCallsLength | sim.py:24-36 | for every Site column, including an empty one, the composition loop makes exactly 3 calls per sample |
| Composition.CompositionCallsAt | sim.py:24-36 | the composition loop makes 3 calls per sample, and sample i's calls are calls 3i to 3i+2 |
| Scores.ScoreRange | sim.py:45-47 | every score range [low, high) is non-empty |
| Scores.ScoreRangesDisjoint | sim.py:45-47 | for each score the NL range lies wholly below the L range, so no value is in both |
| Scores.ScoreAt | sim.py:45-47 | a score drawn for a site lies in that site's range |
| Scores.ScoreBounds | sim.py:45-47 | Acantholysis is in [3,5] for L and [0,1] for NL; Inflammation in [2,3] and [0,1]; PDAI in [18,25] and [8,12] |
| Scores.LesionalScoresHigher | sim.py:45-47 | whatever the draws, an L score strictly exceeds an NL score of the same kind |
| Scores.DrawScoreColumn | sim.py:45-47 | the comprehension returns ScoreColumn of the tape (one draw per row, in row order), advances by one per row, and logs one integer call per row with that row's range |
| Simulation.Taxa | sim.py:40-42 | there are 5 taxon columns, each with one entry per row, and column c of row i is the rounded entry c of that row |
| Simulation.ShannonScale | sim.py:51 | the diversity factor lies in (0, 1], and is below 1 exactly for lesional rows |
| Simulation.Simulate | sim.py:15-51 | the script's table equals Expected of the tape from the starting cursor; it reads 8 tape values per sample; its call log grows by DrawOrder of the Site column |
| Simulation.DrawOrderLength | sim.py:24-47 | for every Site column, including an empty one, the script makes exactly 6 calls per sample |
| Simulation.DrawOrderAt | sim.py:24-36 | the script makes 6n calls, the first 3n being, per sample in index order, uniform (staph range), uniform (prop range), Dirichlet of dimension 3 |
| Simulation.ScoreDrawOrderAt | sim.py:24-47 | after the 3n composition calls come all acantholysis draws, then all inflammation draws, then all PDAI draws, one per row in row order, each with its row's range |
| Simulation.ExpectedShape | sim.py:15-51 | every column of the table has n entries, and there are 5 taxon columns |
| Simulation.ExpectedLabels | sim.py:16-18 | row i carries SampleID(i) and PatientID(i), and Site L exactly for even i, whose code is "L" for even i and "NL" for odd i |
| Simulation.ExpectedScores | sim.py:24-47 | row i's three scores are drawn from tape positions start+5n+i, start+6n+i and start+7n+i (after all compositions, one score column after the other), each within its site's range |
| Simulation.ExpectedComposition | sim.py:24-37 | row i of the composition list is RowAt of the 5 tape values at start+5i: 5 entries summing to 1, markers within the site's ranges |
| Simulation.ExpectedTaxa | sim.py:40-42 | taxon column c of row i is the rounded entry c of row i's composition, and that entry is non-negative |
| Simulation.ExpectedShannon | sim.py:50-52 | the Shannon index of row i is ShannonIndex of row i's unrounded composition (not of the rounded taxon columns), i.e. round1(entropy2(row) · 0.7) for L rows and round1(entropy2(row) · 1.0) for NL rows |
| Simulation.ConfiguredRun | sim.py:10-47 | the configured run has 150 rows, 75 per site, 75 patients of exactly two samples each, distinct SampleIDs, and 6 generator calls per sample |

## Left out

- numpy's Mersenne Twister, its seeding with 42, its bounded-integer sampler and its gamma-based Dirichlet sampler are foreign code. They are replaced by the tape oracle in `Draws`. The model therefore fixes which calls are made and in what order, and the range of each result, but not the values numpy produces. How many tape values a Dirichlet or integer draw reads is part of the oracle, not of numpy.
- Floating point is not modelled: all arithmetic is exact real arithmetic. The model proves that a row sums to exactly 1, not within a rounding tolerance.
- `round(2)` of the taxon columns (sim.py:42) and `round(..., 1)` of the Shannon index (sim.py:51) are opaque parameters (`Numerics.round2`, `Numerics.round1`).
- `scipy.stats.entropy(..., base=2)` (sim.py:51) is the opaque parameter `Numerics.entropy2`. Only its input (the unrounded row) and the scale factor are modelled.
- The comment at sim.py:53 (index ranges 2.0–2.3 and 3.2–3.5 per site) is a statistical expectation, not a guarantee, and is not stated. A five-entry composition has entropy at most log2 5 ≈ 2.32, so the non-lesional range the comment names cannot be reached; with the 0.7 factor a lesional index is at most about 1.63, so the lesional range 2.0–2.3 cannot be reached either.
- The pandas DataFrame construction and the CSV export (sim.py:40, 56, 59) are library plumbing and I/O. The table is a `Dataset` value of columns.
- The console summaries (sim.py:60-67) are printing and float means. The per-site counts they print are proved in `Labels.ConfiguredTable`.
