/** The seeded global random generator the simulator draws from, as an
    abstract stream. The generator is a tape of unit values, each in [0, 1),
    read through a cursor; every draw reads the next values of the tape and
    appends a record of itself to a log, so that the order in which the
    script consumes the stream can be stated. */
module Draws {

  type Tape = nat -> real

  /** Every value the tape yields lies in [0, 1). */
  ghost predicate UnitTape(t: Tape) {
    forall k: nat :: 0.0 <= t(k) < 1.0
  }

  /** One call into the generator, with the arguments it was given. */
  datatype Call =
    | Uniform(low: real, high: real)
    | FlatDirichlet(dim: nat)        // a Dirichlet draw with all concentrations 1, one sample
    | RandInt(lo: int, hi: int)

  lemma ProductSigns(a: real, b: real)
    requires a >= 0.0 && b >= 0.0
    ensures a * b >= 0.0
    ensures a > 0.0 && b > 0.0 ==> a * b > 0.0
  {
  }

  lemma ScaleBound(width: real, u: real)
    ensures width > 0.0 && 0.0 <= u < 1.0 ==> 0.0 <= width * u < width
  {
    if width > 0.0 && 0.0 <= u < 1.0 {
      ProductSigns(width, u);
      ProductSigns(width, 1.0 - u);
      assert width * u + width * (1.0 - u) == width;
    }
  }

  /** A unit value scaled by a width; for a positive width it stays in [0, width). */
  function Scale(width: real, u: real): (p: real)
    ensures width > 0.0 && 0.0 <= u < 1.0 ==> 0.0 <= p < width
  {
    ScaleBound(width, u);
    width * u
  }

  /** A uniform real in [low, high), from one unit value. */
  function UniformDraw(low: real, high: real, u: real): (x: real)
    ensures low < high && 0.0 <= u < 1.0 ==> low <= x < high
  {
    low + Scale(high - low, u)
  }

  /** A uniform integer in [low, high), from one unit value. */
  function RandIntDraw(low: int, high: int, u: real): (k: int)
    requires low < high && 0.0 <= u < 1.0
    ensures low <= k < high
  {
    low + Scale((high - low) as real, u).Floor
  }

  lemma QuotientPositive(w: real, total: real)
    requires w > 0.0 && total > 0.0
    ensures w / total > 0.0
  {
  }

  lemma QuotientsSumToOne(w0: real, w1: real, w2: real)
    requires w0 + w1 + w2 > 0.0
    ensures w0 / (w0 + w1 + w2) + w1 / (w0 + w1 + w2) + w2 / (w0 + w1 + w2) == 1.0
  {
    var total := w0 + w1 + w2;
    assert w0 / total + w1 / total + w2 / total == (w0 + w1 + w2) / total;
  }

  /** A point of the 3-dimensional simplex, from three unit values: each value
      gives a strictly positive weight and the weights are normalised. */
  function FlatDirichlet3(u0: real, u1: real, u2: real): (p: seq<real>)
    requires 0.0 <= u0 < 1.0 && 0.0 <= u1 < 1.0 && 0.0 <= u2 < 1.0
    ensures |p| == 3
    ensures p[0] > 0.0 && p[1] > 0.0 && p[2] > 0.0
    ensures p[0] + p[1] + p[2] == 1.0
  {
    var w0, w1, w2 := 1.0 - u0, 1.0 - u1, 1.0 - u2;
    var total := w0 + w1 + w2;
    QuotientPositive(w0, total);
    QuotientPositive(w1, total);
    QuotientPositive(w2, total);
    QuotientsSumToOne(w0, w1, w2);
    [w0 / total, w1 / total, w2 / total]
  }

  /** The generator: its tape, how far it has been read, and the calls so far. */
  class Rng {
    const tape: Tape
    var cursor: nat
    var calls: seq<Call>

    ghost predicate Valid()
      reads this
    {
      UnitTape(tape)
    }

    /** Seeding fixes the tape; nothing has been drawn yet. */
    constructor (tape: Tape)
      requires UnitTape(tape)
      ensures Valid() && this.tape == tape
      ensures cursor == 0 && calls == []
    {
      this.tape := tape;
      cursor := 0;
      calls := [];
    }

    method Uniform(low: real, high: real) returns (x: real)
      requires Valid()
      modifies this
      ensures Valid()
      ensures x == UniformDraw(low, high, tape(old(cursor)))
      ensures cursor == old(cursor) + 1
      ensures calls == old(calls) + [Call.Uniform(low, high)]
    {
      x := UniformDraw(low, high, tape(cursor));
      cursor := cursor + 1;
      calls := calls + [Call.Uniform(low, high)];
    }

    /** A draw from the flat Dirichlet distribution of dimension 3. It reads
        three unit values. */
    method Dirichlet3() returns (p: seq<real>)
      requires Valid()
      modifies this
      ensures Valid()
      ensures p == FlatDirichlet3(tape(old(cursor)), tape(old(cursor) + 1), tape(old(cursor) + 2))
      ensures cursor == old(cursor) + 3
      ensures calls == old(calls) + [FlatDirichlet(3)]
    {
      p := FlatDirichlet3(tape(cursor), tape(cursor + 1), tape(cursor + 2));
      cursor := cursor + 3;
      calls := calls + [FlatDirichlet(3)];
    }

    /** A uniform integer of the half-open range [low, high); an empty range
        is an error of the caller. */
    method RandInt(low: int, high: int) returns (k: int)
      requires Valid() && low < high
      modifies this
      ensures Valid()
      ensures k == RandIntDraw(low, high, tape(old(cursor)))
      ensures cursor == old(cursor) + 1
      ensures calls == old(calls) + [Call.RandInt(low, high)]
    {
      k := RandIntDraw(low, high, tape(cursor));
      cursor := cursor + 1;
      calls := calls + [Call.RandInt(low, high)];
    }
  }
}
