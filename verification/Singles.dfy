/**
  Single precision, as a `REAL` column keeps a number between 0 and 1: 24 significant bits,
  halves rounded to even, and no finer than 2 to the -149th.
 */
module Singles {
  /** 2 to the 24th. */
  const SCALE: real := 16777216.0

  function RoundEven(y: real): int {
    var f := y.Floor;
    var rest := y - f as real;
    if rest < 0.5 || (rest == 0.5 && f % 2 == 0) then f else f + 1
  }

  /** The nearest multiple of 2 to the -24th. */
  function Grid(x: real): real { RoundEven(x * SCALE) as real / SCALE }

  /** `x` with `e` halvings of the grid available. */
  function Rounded(x: real, e: nat): real
    decreases e
  {
    if x >= 0.5 || e == 0 then Grid(x) else Rounded(2.0 * x, e - 1) / 2.0
  }

  /** How often the grid gets finer below one half. */
  function Halvings(): nat { 125 }

  function Single(x: real): real { Rounded(x, Halvings()) }

  // ---------- rounding is monotone ----------

  lemma RoundEvenMonotone(y: real, z: real)
    requires y <= z
    ensures RoundEven(y) <= RoundEven(z)
  {
  }

  lemma RoundEvenOfInt(k: int)
    ensures RoundEven(k as real) == k
  {
  }

  lemma GridMonotone(x: real, y: real)
    requires x <= y
    ensures Grid(x) <= Grid(y)
  {
    hide RoundEven;
    RoundEvenMonotone(x * SCALE, y * SCALE);
  }

  lemma GridBounds()
    ensures Grid(0.0) == 0.0 && Grid(0.5) == 0.5 && Grid(1.0) == 1.0
  {
    hide RoundEven;
    RoundEvenOfInt(0);
    RoundEvenOfInt(8388608);
    RoundEvenOfInt(16777216);
  }

  lemma {:induction false} RoundedBounds(x: real, e: nat)
    requires 0.0 <= x <= 1.0
    ensures 0.0 <= Rounded(x, e) <= 1.0
    ensures x <= 0.5 ==> Rounded(x, e) <= 0.5
    ensures x >= 0.5 ==> Rounded(x, e) >= 0.5
    decreases e
  {
    hide Grid;
    GridBounds();
    GridMonotone(0.0, x);
    GridMonotone(x, 1.0);
    if x <= 0.5 {
      GridMonotone(x, 0.5);
    }
    if x >= 0.5 {
      GridMonotone(0.5, x);
    } else if e > 0 {
      RoundedBounds(2.0 * x, e - 1);
    }
  }

  lemma {:induction false} RoundedMonotone(x: real, y: real, e: nat)
    requires 0.0 <= x <= y <= 1.0
    ensures Rounded(x, e) <= Rounded(y, e)
    decreases e
  {
    hide Grid;
    RoundedBounds(x, e);
    RoundedBounds(y, e);
    GridMonotone(x, y);
    if y < 0.5 && e > 0 {
      RoundedMonotone(2.0 * x, 2.0 * y, e - 1);
    }
  }

  lemma SingleMonotone(x: real, y: real)
    requires 0.0 <= x <= y <= 1.0
    ensures Single(x) <= Single(y)
  {
    hide Halvings;
    hide Rounded;
    RoundedMonotone(x, y, Halvings());
  }

  // ---------- rounding is to the nearest ----------

  /** One of the numbers a column can keep. */
  ghost predicate IsSingle(y: real, e: nat)
    decreases e
  {
    if y >= 0.5 || e == 0 then OnGrid(y) else IsSingle(2.0 * y, e - 1)
  }

  ghost predicate OnGrid(y: real) {
    exists k: int :: y == GridPoint(k)
  }

  function GridPoint(k: int): real { k as real / SCALE }

  function Distance(x: real, y: real): real { if x < y then y - x else x - y }

  lemma RoundEvenNearest(y: real, k: int)
    ensures Distance(RoundEven(y) as real, y) <= Distance(k as real, y)
    ensures Distance(RoundEven(y) as real, y) == 0.5 ==> RoundEven(y) % 2 == 0
  {
  }

  lemma GridNearest(x: real, y: real)
    requires OnGrid(y)
    ensures OnGrid(Grid(x)) && Distance(Grid(x), x) <= Distance(y, x)
  {
    hide RoundEven;
    var k: int :| y == GridPoint(k);
    RoundEvenNearest(x * SCALE, k);
    assert Grid(x) == GridPoint(RoundEven(x * SCALE));
  }

  lemma {:induction false} OneIsSingle(e: nat)
    ensures IsSingle(1.0, e) && OnGrid(0.5)
  {
    assert 1.0 == GridPoint(16777216) && 0.5 == GridPoint(8388608);
  }

  lemma Between2(x: real, y: real, r: real)
    requires (x <= 0.5 <= y || y <= 0.5 <= x) && Distance(r, x) <= Distance(0.5, x)
    ensures Distance(r, x) <= Distance(y, x)
  {
  }

  lemma {:induction false} RoundedNearest(x: real, y: real, e: nat)
    requires 0.0 <= x <= 1.0 && 0.0 <= y <= 1.0 && IsSingle(y, e)
    ensures IsSingle(Rounded(x, e), e) && Distance(Rounded(x, e), x) <= Distance(y, x)
    decreases e
  {
    hide Grid;
    RoundedBounds(x, e);
    OneIsSingle(e);
    if e == 0 {
      GridNearest(x, y);
    } else if x >= 0.5 {
      GridNearest(x, 0.5);
      if y >= 0.5 {
        GridNearest(x, y);
      } else {
        Between2(x, y, Rounded(x, e));
      }
    } else {
      OneIsSingle(e - 1);
      if y >= 0.5 {
        RoundedNearest(2.0 * x, 1.0, e - 1);
        Between2(x, y, Rounded(x, e));
      } else {
        RoundedNearest(2.0 * x, 2.0 * y, e - 1);
      }
      HalfIsSingle(Rounded(2.0 * x, e - 1), e);
    }
  }

  lemma HalfIsSingle(z: real, e: nat)
    requires e > 0 && 0.0 <= z <= 1.0 && IsSingle(z, e - 1)
    ensures IsSingle(z / 2.0, e)
  {
    OneIsSingle(e);
    if z == 1.0 {
      assert z / 2.0 == 0.5;
    }
  }

  /** The stored number is one a column can keep, and none of those is nearer. */
  lemma SingleIsNearest(x: real, y: real)
    requires 0.0 <= x <= 1.0 && 0.0 <= y <= 1.0 && IsSingle(y, Halvings())
    ensures IsSingle(Single(x), Halvings()) && Distance(Single(x), x) <= Distance(y, x)
  {
    hide Halvings;
    RoundedNearest(x, y, Halvings());
  }

  // ---------- comparing with a threshold ----------

  /** The stored number falls on the same side of the threshold as the exact one. */
  predicate SameVerdict(t: real, c: real) { Single(c) < t <==> c < t }

  /** The first multiple of 2 to the -24th that is not below `t`, in those units. */
  function Up(t: real): int { -((-t * SCALE).Floor) }

  /** Half a unit below it. */
  function Edge(t: real): real { (Up(t) as real - 0.5) / SCALE }

  lemma UpBounds(t: real)
    ensures Up(t) as real - 1.0 < t * SCALE <= Up(t) as real
  {
  }

  lemma RoundEvenBelow(y: real, k: int)
    ensures RoundEven(y) < k <==> y < k as real - 0.5 || (y == k as real - 0.5 && k % 2 == 1)
  {
  }

  lemma GridBelow(t: real, c: real)
    ensures Grid(c) < t <==> c < Edge(t) || (c == Edge(t) && Up(t) % 2 == 1)
  {
    hide RoundEven;
    hide Up;
    var r := RoundEven(c * SCALE);
    UpBounds(t);
    assert Grid(c) < t <==> r as real < t * SCALE;
    assert r as real < t * SCALE <==> r < Up(t);
    RoundEvenBelow(c * SCALE, Up(t));
    assert c < Edge(t) <==> c * SCALE < Up(t) as real - 0.5;
    assert c == Edge(t) <==> c * SCALE == Up(t) as real - 0.5;
  }

  /** The edge below `t`, and whether it rounds down, on the grid that numbers near `t` have. */
  function EdgeAt(t: real, e: nat): real
    decreases e
  {
    if t > 0.5 || e == 0 then Edge(t) else EdgeAt(2.0 * t, e - 1) / 2.0
  }

  predicate EdgeIsBelow(t: real, e: nat)
    decreases e
  {
    if t > 0.5 || e == 0 then Up(t) % 2 == 1 else EdgeIsBelow(2.0 * t, e - 1)
  }

  lemma {:induction false} EdgeAtBelowOne(t: real, e: nat)
    requires t <= 1.0
    ensures EdgeAt(t, e) < 1.0
    decreases e
  {
    UpBounds(t);
    if t <= 0.5 && e > 0 {
      EdgeAtBelowOne(2.0 * t, e - 1);
    }
  }

  lemma {:induction false} RoundedBelow(t: real, c: real, e: nat)
    requires 0.0 <= c <= 1.0
    ensures Rounded(c, e) < t <==> c < EdgeAt(t, e) || (c == EdgeAt(t, e) && EdgeIsBelow(t, e))
    decreases e
  {
    hide Grid;
    hide Edge;
    hide Up;
    if e == 0 || (c >= 0.5 && t > 0.5) {
      GridBelow(t, c);
    } else if t > 0.5 {
      RoundedBounds(c, e);
      EdgeAboveHalf(t);
    } else if c >= 0.5 {
      RoundedBounds(c, e);
      EdgeAtBelowOne(2.0 * t, e - 1);
    } else {
      RoundedBelow(2.0 * t, 2.0 * c, e - 1);
    }
  }

  lemma EdgeAboveHalf(t: real)
    requires t > 0.5
    ensures Edge(t) >= 0.5
  {
    UpBounds(t);
  }

  /** Where the stored numbers below `t` end. */
  function StoredEdge(t: real): real { EdgeAt(t, Halvings()) }

  predicate StoredEdgeIsBelow(t: real) { EdgeIsBelow(t, Halvings()) }

  /** Storing a number amounts to moving the threshold to the edge. */
  lemma StoredBelow(t: real, c: real)
    requires 0.0 <= c <= 1.0
    ensures Single(c) < t <==> c < StoredEdge(t) || (c == StoredEdge(t) && StoredEdgeIsBelow(t))
  {
    hide Halvings;
    hide EdgeAt;
    hide EdgeIsBelow;
    hide Rounded;
    RoundedBelow(t, c, Halvings());
  }

  /** `c` lies between the threshold and the edge. */
  predicate Between(t: real, c: real) {
    || (t <= c && (c < StoredEdge(t) || (c == StoredEdge(t) && StoredEdgeIsBelow(t))))
    || (c < t && (StoredEdge(t) < c || (c == StoredEdge(t) && !StoredEdgeIsBelow(t))))
  }

  /** So the verdict changes exactly for the numbers between the threshold and the edge. */
  lemma VerdictChanges(t: real, c: real)
    requires 0.0 <= c <= 1.0
    ensures SameVerdict(t, c) <==> !Between(t, c)
  {
    hide Single;
    hide StoredEdge;
    hide StoredEdgeIsBelow;
    StoredBelow(t, c);
  }
}
