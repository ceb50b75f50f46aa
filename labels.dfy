/** The three label columns of the simulated table (sample, patient, site),
    each a comprehension over the sample index. */
module Labels {
  import Decimal

  /** Number of simulated samples. */
  const NSamples: nat := 150
  /** Number of patients the table is meant to hold, two samples each. */
  const NPatients: nat := 75

  /** Lesional or non-lesional skin. */
  datatype Site = L | NL {
    /** The literal written into the Site column and compared against. */
    function Code(): (c: string)
      ensures c == "L" <==> this == L
      ensures c == "NL" <==> this == NL
    {
      match this
      case L => "L"
      case NL => "NL"
    }
  }

  function SiteOf(i: nat): Site {
    if i % 2 == 0 then L else NL
  }

  function SampleId(i: nat): string {
    "S" + Decimal.Show(i + 1)
  }

  function PatientId(i: nat): string {
    "P" + Decimal.Show(i / 2 + 1)
  }

  function SampleIdColumn(n: nat): seq<string> {
    seq(n, i requires 0 <= i < n => SampleId(i))
  }

  function PatientIdColumn(n: nat): seq<string> {
    seq(n, i requires 0 <= i < n => PatientId(i))
  }

  function SiteColumn(n: nat): seq<Site> {
    seq(n, i requires 0 <= i < n => SiteOf(i))
  }

  function Elements<T>(s: seq<T>): set<T> {
    set x | x in s
  }

  /** A column of n + 1 rows is the column of n rows with row n appended. */
  lemma PatientColumnExtends(n: nat)
    ensures PatientIdColumn(n + 1) == PatientIdColumn(n) + [PatientId(n)]
  {
  }

  lemma SiteColumnExtends(n: nat)
    ensures SiteColumn(n + 1) == SiteColumn(n) + [SiteOf(n)]
  {
  }

  /** Sample identifiers are "S" followed by the decimal of the index plus one,
      so no two rows share one. */
  lemma SampleIdsDistinct(n: nat, i: nat, j: nat)
    requires i < n && j < n
    ensures SampleIdColumn(n)[i][0] == 'S'
    ensures SampleIdColumn(n)[i][1..] == Decimal.Show(i + 1)
    ensures SampleIdColumn(n)[i] == SampleIdColumn(n)[j] <==> i == j
  {
    var a, b := SampleIdColumn(n)[i], SampleIdColumn(n)[j];
    assert a[1..] == Decimal.Show(i + 1);
    assert b[1..] == Decimal.Show(j + 1);
    Decimal.ShowInjective(i + 1, j + 1);
  }

  /** Two samples have the same patient exactly when their indices agree
      after halving, i.e. samples 2k and 2k + 1 are one patient's pair. */
  lemma SamePatientIffPaired(i: nat, j: nat)
    ensures PatientId(i) == PatientId(j) <==> i / 2 == j / 2
  {
    var a, b := PatientId(i), PatientId(j);
    assert a[1..] == Decimal.Show(i / 2 + 1);
    assert b[1..] == Decimal.Show(j / 2 + 1);
    Decimal.ShowInjective(i / 2 + 1, j / 2 + 1);
  }

  /** The number of rows among the first n that belong to the patient of
      samples 2k and 2k + 1. */
  lemma {:induction false} PatientRowsBelow(n: nat, k: nat)
    ensures multiset(PatientIdColumn(n))[PatientId(2 * k)] ==
      if n <= 2 * k then 0 else if n == 2 * k + 1 then 1 else 2
  {
    if n > 0 {
      var m := n - 1;
      PatientRowsBelow(m, k);
      PatientColumnExtends(m);
      var p := PatientId(2 * k);
      var before := multiset(PatientIdColumn(m));
      assert multiset(PatientIdColumn(n)) == before + multiset{PatientId(m)};
      SamePatientIffPaired(m, 2 * k);
      if m / 2 == k {
        assert PatientId(m) == p;
        assert multiset(PatientIdColumn(n))[p] == before[p] + 1;
      } else {
        assert PatientId(m) != p;
        assert multiset(PatientIdColumn(n))[p] == before[p];
      }
    }
  }

  /** In a table of an even number of rows every patient has exactly two samples. */
  lemma PatientHasTwoSamples(n: nat, i: nat)
    requires n % 2 == 0 && i < n
    ensures multiset(PatientIdColumn(n))[PatientIdColumn(n)[i]] == 2
  {
    SamePatientIffPaired(i, 2 * (i / 2));
    PatientRowsBelow(n, i / 2);
  }

  lemma ElementsAppend<T>(s: seq<T>, x: T)
    ensures Elements(s + [x]) == Elements(s) + {x}
  {
    assert forall y :: y in s + [x] <==> y in s || y == x;
  }

  lemma HalfStep(m: nat)
    ensures (m + 2) / 2 == (m + 1) / 2 + (if m % 2 == 1 then 0 else 1)
    ensures (m + 1) / 2 == m / 2 + (if m % 2 == 1 then 1 else 0)
  {
    var q := m / 2;
    assert m == 2 * q + m % 2;
    if m % 2 == 1 {
      assert m + 1 == 2 * (q + 1) && m + 2 == 2 * (q + 1) + 1;
    } else {
      assert m + 1 == 2 * q + 1 && m + 2 == 2 * (q + 1);
    }
  }

  lemma AddOne<T>(s: set<T>, x: T)
    ensures |s + {x}| == if x in s then |s| else |s| + 1
  {
    if x in s {
      assert s + {x} == s;
    }
  }

  /** The patient of sample m does not occur among the samples before it
      when m is even, and does when m is odd. */
  lemma NewPatientAt(m: nat)
    ensures PatientId(m) in Elements(PatientIdColumn(m)) <==> m % 2 == 1
  {
    var col := PatientIdColumn(m);
    if m % 2 == 1 {
      SamePatientIffPaired(m, m - 1);
      assert col[m - 1] == PatientId(m);
    } else if PatientId(m) in Elements(col) {
      var j :| 0 <= j < m && col[j] == PatientId(m);
      SamePatientIffPaired(m, j);
    }
  }

  /** The first n rows name (n + 1) / 2 distinct patients. */
  lemma {:induction false} DistinctPatients(n: nat)
    ensures |Elements(PatientIdColumn(n))| == (n + 1) / 2
  {
    if n > 0 {
      var m := n - 1;
      DistinctPatients(m);
      PatientColumnExtends(m);
      var before, p := Elements(PatientIdColumn(m)), PatientId(m);
      ElementsAppend(PatientIdColumn(m), p);
      NewPatientAt(m);
      AddOne(before, p);
      assert |Elements(PatientIdColumn(n))| == |before| + (if m % 2 == 1 then 0 else 1);
      HalfStep(m);
    }
  }

  /** Sites alternate strictly with the index: L exactly on even indices. */
  lemma SitesAlternate(n: nat, i: nat)
    requires i < n
    ensures SiteColumn(n)[i] == L <==> i % 2 == 0
    ensures i + 1 < n ==> SiteColumn(n)[i] != SiteColumn(n)[i + 1]
  {
  }

  /** The first n rows hold (n + 1) / 2 lesional and n / 2 non-lesional sites. */
  lemma {:induction false} SiteCounts(n: nat)
    ensures multiset(SiteColumn(n))[L] == (n + 1) / 2
    ensures multiset(SiteColumn(n))[NL] == n / 2
  {
    if n > 0 {
      var m := n - 1;
      SiteCounts(m);
      SiteColumnExtends(m);
      var before := multiset(SiteColumn(m));
      assert multiset(SiteColumn(n)) == before + multiset{SiteOf(m)};
      HalfStep(m);
      if m % 2 == 0 {
        assert SiteOf(m) == L;
        assert multiset(SiteColumn(n))[L] == before[L] + 1;
        assert multiset(SiteColumn(n))[NL] == before[NL];
      } else {
        assert SiteOf(m) == NL;
        assert multiset(SiteColumn(n))[L] == before[L];
        assert multiset(SiteColumn(n))[NL] == before[NL] + 1;
      }
    }
  }

  /** The configured table: 75 lesional and 75 non-lesional rows, and as many
      distinct patients as the configured patient count. */
  lemma ConfiguredTable()
    ensures multiset(SiteColumn(NSamples))[L] == 75
    ensures multiset(SiteColumn(NSamples))[NL] == 75
    ensures |Elements(PatientIdColumn(NSamples))| == NPatients
  {
    SiteCounts(NSamples);
    DistinctPatients(NSamples);
  }
}
