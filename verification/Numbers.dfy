/** Exact arithmetic shared by the replay and risk code: Python's `round`, `math.floor` and `math.ceil`. */
module Numbers {

  const CENT := 100
  const TICK := 10_000
  const MICRO := 1_000_000

  function Min(x: real, y: real): real { if y < x then y else x }

  function Max(x: real, y: real): real { if y > x then y else x }

  function Abs(x: real): real { if x < 0.0 then -x else x }

  function Floor(x: real): (n: int)
    ensures n as real <= x < n as real + 1.0
  {
    x.Floor
  }

  function Ceil(x: real): (n: int)
    ensures n as real - 1.0 < x <= n as real
  {
    -((-x).Floor)
  }

  /** Round to the nearest integer, ties to the even neighbour. */
  function HalfEven(x: real): (n: int)
    ensures x - 0.5 <= n as real <= x + 0.5
    ensures Abs(x - n as real) == 0.5 ==> n % 2 == 0
  {
    var below := x.Floor;
    var part := x - below as real;
    if part < 0.5 then below
    else if part > 0.5 then below + 1
    else if below % 2 == 0 then below
    else below + 1
  }

  /** Round to a multiple of 1/scale; `scale` is 10 to the number of digits. */
  function Round(x: real, scale: int): (r: real)
    requires scale > 0
    ensures Abs(r - x) <= 0.5 / scale as real
  {
    var n := HalfEven(x * scale as real);
    ScaleDown(x, n as real, scale as real);
    n as real / scale as real
  }

  lemma ScaleDown(x: real, n: real, s: real)
    requires s > 0.0
    requires Abs(n - x * s) <= 0.5
    ensures Abs(n / s - x) <= 0.5 / s
  {
    DivideMonotone(n - x * s, 0.5, s);
    DivideMonotone(-0.5, n - x * s, s);
    assert (n - x * s) / s == n / s - x;
    assert (-0.5) / s == -(0.5 / s);
  }

  lemma DivideMonotone(x: real, y: real, s: real)
    requires s > 0.0 && x <= y
    ensures x / s <= y / s
  {
    var d := (y - x) / s;
    assert d * s == y - x;
    assert y / s - x / s == d;
  }

  lemma TimesMonotone(x: real, y: real, s: real)
    requires s >= 0.0 && x <= y
    ensures x * s <= y * s
  {
    assert (y - x) * s >= 0.0;
  }

  lemma ProductSign(x: real, y: real)
    requires x >= 0.0
    ensures y >= 0.0 ==> x * y >= 0.0
    ensures y <= 0.0 ==> x * y <= 0.0
    ensures x > 0.0 && y > 0.0 ==> x * y > 0.0
  {
  }

  lemma QuotientSign(x: real, y: real)
    requires y > 0.0
    ensures x > 0.0 <==> x / y > 0.0
  {
    var q := x / y;
    assert q * y == x;
  }

  /** The nearest integer of an integer is itself, so rounding twice is rounding once. */
  lemma HalfEvenExact(n: int)
    ensures HalfEven(n as real) == n
  {
  }

  lemma HalfEvenMonotone(x: real, y: real)
    requires x <= y
    ensures HalfEven(x) <= HalfEven(y)
  {
  }

  lemma HalfEvenStrict(x: real, y: real)
    requires x + 1.0 < y
    ensures HalfEven(x) < HalfEven(y)
  {
  }

  function Power(x: real, n: nat): (r: real)
    ensures x >= 1.0 ==> r >= 1.0
  {
    if n == 0 then 1.0 else x * Power(x, n - 1)
  }
}
