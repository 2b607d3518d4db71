/** Rounding onto the price grid.  Prices are measured in ticks, so the grid is the integers. */
module TickGrid {

  predicate OnGrid(x: real) { x == x.Floor as real }

  /** The highest grid price at or below x. */
  function FloorTick(x: real): (r: real)
    ensures r <= x < r + 1.0
  {
    x.Floor as real
  }

  /** The lowest grid price at or above x. */
  function CeilTick(x: real): (r: real)
    ensures r - 1.0 < x <= r
  {
    -((-x).Floor as real)
  }

  lemma IntOnGrid(k: int)
    ensures OnGrid(k as real)
  {
  }

  lemma RoundedOnGrid(x: real)
    ensures OnGrid(FloorTick(x)) && OnGrid(CeilTick(x))
  {
    var k := (-x).Floor;
    IntOnGrid(-k);
    assert (-k) as real == -(k as real);
  }

  lemma GridShift(x: real, n: int)
    requires OnGrid(x)
    ensures OnGrid(x + n as real)
  {
    var k := x.Floor;
    IntOnGrid(k + n);
    assert (k + n) as real == x + n as real;
  }

  /** Grid prices less than a tick apart are equal. */
  lemma GridGap(x: real, y: real)
    requires OnGrid(x) && OnGrid(y) && x > y - 1.0
    ensures x >= y
  {
    var a, b := x.Floor, y.Floor;
    assert a as real > b as real - 1.0 == (b - 1) as real;
    assert a > b - 1;
  }

  lemma FloorIsGreatest(x: real, y: real)
    requires OnGrid(y) && y <= x
    ensures y <= FloorTick(x)
  {
  }

  lemma CeilIsLeast(x: real, y: real)
    requires OnGrid(y) && x <= y
    ensures CeilTick(x) <= y
  {
    RoundedOnGrid(x);
    GridGap(y, CeilTick(x));
  }

  lemma FloorOfGrid(x: real)
    requires OnGrid(x)
    ensures FloorTick(x) == x == CeilTick(x)
  {
    FloorIsGreatest(x, x);
    CeilIsLeast(x, x);
  }

  /** Reflection about half a grid price swaps the two roundings. */
  lemma RoundingMirror(c: real, x: real)
    requires OnGrid(c)
    ensures FloorTick(c - x) == c - CeilTick(x)
    ensures CeilTick(c - x) == c - FloorTick(x)
  {
    var k, f, g := c.Floor, x.Floor, (-x).Floor;
    assert (c - x).Floor == k + g by {
      assert g as real <= -x < g as real + 1.0;
      assert (k + g) as real == c + g as real;
    }
    assert (-(c - x)).Floor == f - k by {
      assert f as real <= x < f as real + 1.0;
      assert (f - k) as real == f as real - c;
    }
    assert (k + g) as real == c + g as real && (f - k) as real == f as real - c;
  }
}
