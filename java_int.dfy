/**
 * Java's integer `/` and `%` by a positive divisor (the grid size): both truncate toward
 * zero, where Dafny's operators are Euclidean, so they differ on negative state ids.
 * 32-bit wrap-around is not modelled: every quantity in the model stays small.
 */
module JavaInt {

  function Max(a: int, b: int): (r: int)
    ensures r >= a && r >= b && (r == a || r == b)
  {
    if a >= b then a else b
  }

  function Min(a: int, b: int): (r: int)
    ensures r <= a && r <= b && (r == a || r == b)
  {
    if a <= b then a else b
  }

  /** Java `a / b` for b > 0: rounds toward zero, so Div(-a, b) == -Div(a, b). */
  function Div(a: int, b: int): (q: int)
    requires b > 0
    ensures a >= 0 ==> q == a / b
    ensures a < 0 ==> q == -((-a) / b) && q <= 0
  {
    if a >= 0 then a / b else -((-a) / b)
  }

  /** Java `a % b` for b > 0: the remainder takes the sign of `a`. */
  function Rem(a: int, b: int): (r: int)
    requires b > 0
    ensures -b < r < b
    ensures a >= 0 ==> r == a % b
    ensures a < 0 ==> r == -((-a) % b) && r <= 0
  {
    if a >= 0 then a % b else -((-a) % b)
  }

  /** Java's identity `(a / b) * b + a % b == a`. */
  lemma DivRem(a: int, b: int)
    requires b > 0
    ensures Div(a, b) * b + Rem(a, b) == a
  {
    var n := if a >= 0 then a else -a;
    assert n == (n / b) * b + n % b;
    if a < 0 {
      assert Div(a, b) * b == -((n / b) * b);
    }
  }

  /** Encoding a cell as `row * g + col` and decoding it with Java's operators gives the cell back. */
  lemma DecodeCell(row: int, col: int, g: int)
    requires g > 0 && 0 <= row && 0 <= col < g
    ensures Div(row * g + col, g) == row && Rem(row * g + col, g) == col
  {
    DivUnique(row * g + col, g, row, col);
  }

  lemma DivUnique(a: int, g: int, q: int, r: int)
    requires g > 0 && 0 <= r < g && a == q * g + r
    ensures a / g == q && a % g == r
  {
    var q', r' := a / g, a % g;
    assert a == q' * g + r';
    assert (q' - q) * g == r - r';
    if q' > q {
      MulAtLeast(q' - q, g);
    } else if q' < q {
      MulAtLeast(q - q', g);
    }
  }

  lemma MulAtLeast(d: int, g: int)
    requires d >= 1 && g > 0
    ensures d * g >= g
  {
    if d > 1 {
      MulAtLeast(d - 1, g);
      assert d * g == (d - 1) * g + g;
    }
  }

  /** Dafny's division facts for a non-negative dividend, stated once. */
  lemma EuclidNonNegative(s: int, g: int)
    requires g > 0 && 0 <= s
    ensures s == (s / g) * g + s % g && 0 <= s % g < g && 0 <= s / g
  {
  }

  lemma MulMonotone(x: int, y: int, g: int)
    requires 0 <= x <= y && g > 0
    ensures x * g <= y * g
  {
    if x < y {
      MulAtLeast(y - x, g);
      assert y * g == (y - x) * g + x * g;
    }
  }

  /** A state id below g * g lies in one of the g rows. */
  lemma RowBelow(s: int, g: int)
    requires g > 0 && 0 <= s < g * g
    ensures s / g < g
  {
    var q := s / g;
    EuclidNonNegative(s, g);
    if q >= g {
      MulMonotone(g, q, g);
      assert false;
    }
  }

  /** A cell of the grid encodes to a state id in [0, g * g). */
  lemma CellInRange(row: int, col: int, g: int)
    requires 0 <= row < g && 0 <= col < g
    ensures 0 <= row * g + col < g * g
  {
    MulMonotone(row, g - 1, g);
    assert (g - 1) * g + g == g * g;
    MulMonotone(0, row, g);
  }
}
