/** Distance values, neighbour entries and the rows of the distance table. */
module Distances {
  import opened Ordering

  /** One (feature vector type, distance type) combination. */
  datatype Kind = Kind(fvt: int, dist: int)

  /** A row of the distance table: the distance from track a to track b. */
  datatype Row = Row(kind: Kind, a: int, b: int, value: real)

  /** A pair of a distance and the (track, segment) it leads to. */
  datatype Neighbour = Neighbour(d: real, track: int, segment: int)

  /** The largest double, 2^1024 - 2^971: the limit used where no limit is known. */
  const MAX_DOUBLE: real := 179769313486231570814527423731704356798070567525844996598917476803157260780028538760589558632766878171540458953514382464234321326889464182768467546703537516986049910576551282076245490090389328944075868508455133942304583236903222948165808559332123348274797826204144723168738177180919299881250404026184124858368.0

  /** Every pair of tracks has a finite distance below the largest double. */
  type Distance = d: real | d < MAX_DOUBLE witness 0.0

  function RealLeq(x: real, y: real): bool { x <= y }

  /** Lexicographic order on (distance, (track, segment)). */
  function NeighbourLeq(x: Neighbour, y: Neighbour): bool {
    || x.d < y.d
    || (x.d == y.d && (x.track < y.track || (x.track == y.track && x.segment <= y.segment)))
  }

  /** Ordered by distance; entries at the same distance stand in any order. */
  ghost predicate NearestFirst(ns: seq<Neighbour>) {
    forall i, j :: 0 <= i < j < |ns| ==> ns[i].d <= ns[j].d
  }

  function NeighbourDistance(n: Neighbour): real { n.d }

  lemma RealOrder()
    ensures TotalOrder(RealLeq)
  {
  }

  lemma NeighbourOrder()
    ensures TotalOrder(NeighbourLeq)
  {
  }

  // ------------------------------------------------- the text form of a value

  function RoundHalfEven(x: real): int {
    var n := x.Floor;
    var f := x - n as real;
    if f < 0.5 || (f == 0.5 && n % 2 == 0) then n else n + 1
  }

  /** What a distance becomes when it is printed with "%f" and read back. */
  function SixDecimals(x: real): real {
    RoundHalfEven(x * 1000000.0) as real / 1000000.0
  }

  lemma RoundMonotone(x: real, y: real)
    requires x <= y
    ensures RoundHalfEven(x) <= RoundHalfEven(y)
  {
  }

  lemma SixDecimalsMonotone(x: real, y: real)
    requires x <= y
    ensures SixDecimals(x) <= SixDecimals(y)
  {
    RoundMonotone(x * 1000000.0, y * 1000000.0);
  }

  /** The nearest integer, and of two equally near ones the even one. */
  lemma RoundsToNearest(x: real)
    ensures x - 0.5 <= RoundHalfEven(x) as real <= x + 0.5
    ensures x - 0.5 == RoundHalfEven(x) as real || RoundHalfEven(x) as real == x + 0.5 ==> RoundHalfEven(x) % 2 == 0
  {
  }

  /** The text form is at most half a millionth away. */
  lemma SixDecimalsNear(x: real)
    ensures x - 0.0000005 <= SixDecimals(x) <= x + 0.0000005
  {
    RoundsToNearest(x * 1000000.0);
  }

  lemma RoundInteger(n: int)
    ensures RoundHalfEven(n as real) == n
  {
  }

  /** A value read back from the table prints as itself. */
  lemma SixDecimalsIdempotent(x: real)
    ensures SixDecimals(SixDecimals(x)) == SixDecimals(x)
  {
    var n := RoundHalfEven(x * 1000000.0);
    RoundInteger(n);
    var y := n as real / 1000000.0;
    assert y * 1000000.0 == n as real;
  }
}
