/** Python's `round`, over reals. */
module Rounding {
  /** To the nearest integer, ties to the even neighbour. */
  function RoundHalfEven(x: real): int {
    var f := x.Floor;
    var rest := x - f as real;
    if rest < 0.5 || (rest == 0.5 && f % 2 == 0) then f else f + 1
  }

  function Round3(x: real): real {
    RoundHalfEven(x * 1000.0) as real / 1000.0
  }

  function Round4(x: real): real {
    RoundHalfEven(x * 10000.0) as real / 10000.0
  }

  lemma RoundIsNearest(x: real)
    ensures x - 0.5 <= RoundHalfEven(x) as real <= x + 0.5
  {
  }

  /** The nearest integer and, of two equally near, the even one. */
  predicate IsNearestEven(m: int, x: real) {
    x - 0.5 <= m as real <= x + 0.5 && (m as real == x - 0.5 || m as real == x + 0.5 ==> m % 2 == 0)
  }

  lemma RoundExactly(x: real, m: int)
    ensures RoundHalfEven(x) == m <==> IsNearestEven(m, x)
  {
  }

  lemma RoundHalfEvenKeepsOrder(x: real, y: real)
    requires x <= y
    ensures RoundHalfEven(x) <= RoundHalfEven(y)
  {
    if x.Floor < y.Floor {
      assert RoundHalfEven(x) <= x.Floor + 1 <= y.Floor;
    }
  }

  /** Rounding to four places never reorders. */
  lemma Round4KeepsOrder(x: real, y: real)
    requires x <= y
    ensures Round4(x) <= Round4(y)
  {
    RoundHalfEvenKeepsOrder(x * 10000.0, y * 10000.0);
  }

  /** Rounding to four places hides no gap wider than one unit of the fourth place. */
  lemma WideGapsSurviveRounding(x: real, y: real)
    requires y - x > 0.0001
    ensures Round4(x) < Round4(y)
  {
    RoundIsNearest(x * 10000.0);
    RoundIsNearest(y * 10000.0);
  }

  /** Rounding to three places is off by at most half a unit of the third place. */
  lemma Round3IsClose(x: real)
    ensures x - 0.0005 <= Round3(x) <= x + 0.0005
  {
    RoundIsNearest(x * 1000.0);
  }
}
