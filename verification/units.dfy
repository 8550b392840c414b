/**
  Human-readable byte sizes (`bytes_to_human`).

  A byte count is divided by 1024 repeatedly while walking the ladder
  Bytes, KB, MB, GB, TB; the first unit at which the scaled size is below
  1024 is reported, and a size that never qualifies falls through to PB.
  Only the unit and the exact magnitude are modelled, not the "%.2f" text.
 */
module Units {

  datatype Unit = Bytes | KB | MB | GB | TB | PB

  /** Position of a unit on the ladder: the power of 1024 it stands for. */
  function Rank(u: Unit): nat
  {
    match u
    case Bytes => 0
    case KB => 1
    case MB => 2
    case GB => 3
    case TB => 4
    case PB => 5
  }

  /** The unit at a given ladder position; position 5 is the PB fall-through. */
  function UnitOfRank(k: nat): (u: Unit)
    requires k <= 5
    ensures Rank(u) == k
  {
    if k == 0 then Bytes
    else if k == 1 then KB
    else if k == 2 then MB
    else if k == 3 then GB
    else if k == 4 then TB
    else PB
  }

  const Base: real := 1024.0

  /** Number of bytes in one unit, 1024^Rank(u). */
  function Scale(u: Unit): real
  {
    match u
    case Bytes => 1.0
    case KB => 1024.0
    case MB => 1048576.0
    case GB => 1073741824.0
    case TB => 1099511627776.0
    case PB => 1125899906842624.0
  }

  /** The value at which the ladder gives up and reports PB: 1024^5. */
  const PBThreshold: real := Scale(PB)

  /** A size expressed as a magnitude in a unit. */
  datatype Human = Human(magnitude: real, unit: Unit)

  /** The number of bytes a human-readable size stands for. */
  function ToBytes(h: Human): real
  {
    h.magnitude * Scale(h.unit)
  }

  /**
    `u` is the unit the ladder stops at for `n`: every smaller unit leaves a
    scaled size of at least 1024, and `u` itself (unless it is the PB
    fall-through) brings the scaled size below 1024.
   */
  ghost predicate IsFirstFit(n: real, u: Unit)
  {
    && (u != PB ==> n / Scale(u) < Base)
    && forall v: Unit :: Rank(v) < Rank(u) ==> n / Scale(v) >= Base
  }

  lemma RankInjective(u: Unit)
    ensures UnitOfRank(Rank(u)) == u
  {
  }

  lemma ScaleDivide(n: real, k: nat)
    requires k < 5
    ensures (n / Scale(UnitOfRank(k))) / Base == n / Scale(UnitOfRank(k + 1))
  {
  }

  /** Scaling into a unit and back recovers the byte count. */
  lemma ScaleRoundTrip(n: real, u: Unit)
    ensures ToBytes(Human(n / Scale(u), u)) == n
  {
  }

  /**
    The conversion as the program performs it: walk the ladder, dividing the
    running size by 1024 after each unit that does not fit.
   */
  method BytesToHuman(n: real) returns (h: Human)
    ensures IsFirstFit(n, h.unit)
    ensures h.magnitude == n / Scale(h.unit)
    ensures ToBytes(h) == n
  {
    var size := n;
    var i := 0;
    while i < 5
      invariant 0 <= i <= 5
      invariant size == n / Scale(UnitOfRank(i))
      invariant forall v: Unit :: Rank(v) < i ==> n / Scale(v) >= Base
    {
      if size < Base {
        h := Human(size, UnitOfRank(i));
        ScaleRoundTrip(n, h.unit);
        return;
      }
      forall v: Unit | Rank(v) < i + 1
        ensures n / Scale(v) >= Base
      {
        RankInjective(v);
      }
      ScaleDivide(n, i);
      size := size / Base;
      i := i + 1;
    }
    h := Human(size, PB);
    ScaleRoundTrip(n, PB);
  }

  /** The ladder has exactly one stopping point for every size. */
  lemma FirstFitUnique(n: real, u: Unit, v: Unit)
    requires IsFirstFit(n, u) && IsFirstFit(n, v)
    ensures u == v
  {
    RankInjective(u);
    RankInjective(v);
  }

  /** Any size below 1024, negative counter deltas included, stays in Bytes. */
  lemma SmallSizesStayBytes(n: real)
    requires n < Base
    ensures IsFirstFit(n, Bytes)
    ensures n / Scale(Bytes) == n
  {
  }

  /** Sizes of at least 1024^5 fall through to PB. */
  lemma HugeSizesArePB(n: real)
    requires n >= PBThreshold
    ensures IsFirstFit(n, PB)
    ensures n / Scale(PB) >= 1.0
  {
    forall v: Unit | Rank(v) < Rank(PB)
      ensures n / Scale(v) >= Base
    {
      assert Scale(v) * Base <= PBThreshold;
    }
  }

  /**
    For a non-negative size below 1024^5 the reported magnitude is in
    [0, 1024), and it is at least 1 whenever the unit is above Bytes.
   */
  lemma MagnitudeInRange(n: real, u: Unit)
    requires 0.0 <= n < PBThreshold
    requires IsFirstFit(n, u)
    ensures 0.0 <= n / Scale(u) < Base
    ensures u != Bytes ==> n / Scale(u) >= 1.0
  {
    if u != Bytes {
      var below := UnitOfRank(Rank(u) - 1);
      assert n / Scale(below) >= Base;
      ScaleDivide(n, Rank(below));
    }
  }

  /** A larger size never gets a smaller unit. */
  lemma UnitMonotone(a: real, b: real, u: Unit, v: Unit)
    requires a <= b
    requires IsFirstFit(a, u) && IsFirstFit(b, v)
    ensures Rank(u) <= Rank(v)
  {
  }

  /** One mebibyte is reported as 1.00 MB. */
  lemma OneMebibyte()
    ensures IsFirstFit(1048576.0, MB)
    ensures 1048576.0 / Scale(MB) == 1.0
  {
  }
}
