/** Python's binary operators `//`, `%`, `/`, `*`, `+` and `-` on the values a
    configuration holds, as the scheduler and the configuration loader use
    them. `int` op `int` stays an `int` for `//`, `%` and `*`; `/` always gives
    a `float`; a `float` operand makes the result a `float`; `//`, `%` and `/`
    raise `ZeroDivisionError` on a zero divisor; `str * int` repeats the string;
    every other mix raises `TypeError`. `%` is modelled for a numeric left
    operand only: Python's printf-style `str % value` formatting is not
    modelled, and a string there raises `TypeError`. Floats are exact reals
    here. */
module PyArith {
  import opened PyObjects

  predicate IsNumber(v: Value) {
    v.IntV? || v.RealV?
  }

  function ToReal(v: Value): real
    requires IsNumber(v)
  {
    if v.IntV? then v.i as real else v.r
  }

  /** The fractional part of `x`, in [0, 1). */
  function Frac(x: real): (f: real)
    ensures 0.0 <= f < 1.0
  {
    x - x.Floor as real
  }

  /** Python's `x // y` on ints, which rounds toward negative infinity
      (Dafny's own `/` is Euclidean and differs for a negative divisor). */
  function FloorDivInt(x: int, y: int): (q: int)
    requires y != 0
    ensures y > 0 ==> y * q <= x < y * q + y
    ensures y < 0 ==> y * q + y < x <= y * q
  {
    if y > 0 then x / y
    else
      var q := (-x) / (-y);
      assert (-y) * q == -(y * q);
      q
  }

  /** Python's `x % y` on ints: the remainder takes the sign of the divisor. */
  function ModInt(x: int, y: int): (m: int)
    requires y != 0
    ensures y > 0 ==> 0 <= m < y
    ensures y < 0 ==> y < m <= 0
  {
    x - y * FloorDivInt(x, y)
  }

  /** `s * n` for a string and an int. */
  function Repeat(s: string, n: int): (t: string)
    ensures |t| == if n <= 0 then 0 else n * |s|
  {
    if n <= 0 then [] else s + Repeat(s, n - 1)
  }

  function FloorDiv(a: Value, b: Value): (r: Result<Value>)
    ensures !IsNumber(a) || !IsNumber(b) ==> r == Err(TypeError)
    ensures IsNumber(a) && IsNumber(b) && ToReal(b) == 0.0 ==> r == Err(ZeroDivisionError)
    ensures IsNumber(a) && IsNumber(b) && ToReal(b) != 0.0 ==>
      && r.Ok?
      && IsNumber(r.value)
      && (r.value.IntV? <==> a.IntV? && b.IntV?)
      && ToReal(r.value) == (ToReal(a) / ToReal(b)).Floor as real
  {
    if !IsNumber(a) || !IsNumber(b) then Err(TypeError)
    else if ToReal(b) == 0.0 then Err(ZeroDivisionError)
    else if a.IntV? && b.IntV? then
      FloorDivIntIsFloor(a.i, b.i);
      Ok(IntV(FloorDivInt(a.i, b.i)))
    else Ok(RealV((ToReal(a) / ToReal(b)).Floor as real))
  }

  function Mod(a: Value, b: Value): (r: Result<Value>)
    ensures !IsNumber(a) || !IsNumber(b) ==> r == Err(TypeError)
    ensures IsNumber(a) && IsNumber(b) && ToReal(b) == 0.0 ==> r == Err(ZeroDivisionError)
    ensures IsNumber(a) && IsNumber(b) && ToReal(b) != 0.0 ==>
      && r.Ok?
      && IsNumber(r.value)
      && (r.value.IntV? <==> a.IntV? && b.IntV?)
      && ToReal(r.value) / ToReal(b) == Frac(ToReal(a) / ToReal(b))
  {
    if !IsNumber(a) || !IsNumber(b) then Err(TypeError)
    else if ToReal(b) == 0.0 then Err(ZeroDivisionError)
    else if a.IntV? && b.IntV? then
      ModIntIsFrac(a.i, b.i);
      Ok(IntV(ModInt(a.i, b.i)))
    else
      var x, y := ToReal(a), ToReal(b);
      RemainderOverDivisor(x, y, (x / y).Floor);
      Ok(RealV(x - y * (x / y).Floor as real))
  }

  function TrueDiv(a: Value, b: Value): (r: Result<Value>)
    ensures !IsNumber(a) || !IsNumber(b) ==> r == Err(TypeError)
    ensures IsNumber(a) && IsNumber(b) && ToReal(b) == 0.0 ==> r == Err(ZeroDivisionError)
    ensures IsNumber(a) && IsNumber(b) && ToReal(b) != 0.0 ==>
      r == Ok(RealV(ToReal(a) / ToReal(b)))
  {
    if !IsNumber(a) || !IsNumber(b) then Err(TypeError)
    else if ToReal(b) == 0.0 then Err(ZeroDivisionError)
    else Ok(RealV(ToReal(a) / ToReal(b)))
  }

  function Mul(a: Value, b: Value): (r: Result<Value>)
    ensures IsNumber(a) && IsNumber(b) ==>
      && r.Ok?
      && IsNumber(r.value)
      && (r.value.IntV? <==> a.IntV? && b.IntV?)
      && ToReal(r.value) == ToReal(a) * ToReal(b)
    ensures r.Ok? && !IsNumber(r.value) ==> r.value.StrV? && (a.StrV? || b.StrV?)
    ensures a.StrV? && b.IntV? ==> r == Ok(StrV(Repeat(a.s, b.i)))
    ensures a.IntV? && b.StrV? ==> r == Ok(StrV(Repeat(b.s, a.i)))
    ensures r.Err? <==> !((IsNumber(a) && IsNumber(b)) || (a.StrV? && b.IntV?) || (a.IntV? && b.StrV?))
    ensures r.Err? ==> r.error == TypeError
  {
    if IsNumber(a) && IsNumber(b) then
      if a.IntV? && b.IntV? then Ok(IntV(a.i * b.i)) else Ok(RealV(ToReal(a) * ToReal(b)))
    else if a.StrV? && b.IntV? then Ok(StrV(Repeat(a.s, b.i)))
    else if a.IntV? && b.StrV? then Ok(StrV(Repeat(b.s, a.i)))
    else Err(TypeError)
  }

  function Add(a: Value, b: Value): (r: Result<Value>)
    ensures IsNumber(a) && IsNumber(b) ==>
      && r.Ok?
      && IsNumber(r.value)
      && (r.value.IntV? <==> a.IntV? && b.IntV?)
      && ToReal(r.value) == ToReal(a) + ToReal(b)
    ensures a.StrV? && b.StrV? ==> r == Ok(StrV(a.s + b.s))
    ensures r.Err? <==> !((IsNumber(a) && IsNumber(b)) || (a.StrV? && b.StrV?))
    ensures r.Err? ==> r.error == TypeError
  {
    if IsNumber(a) && IsNumber(b) then
      if a.IntV? && b.IntV? then Ok(IntV(a.i + b.i)) else Ok(RealV(ToReal(a) + ToReal(b)))
    else if a.StrV? && b.StrV? then Ok(StrV(a.s + b.s))
    else Err(TypeError)
  }

  function Sub(a: Value, b: Value): (r: Result<Value>)
    ensures IsNumber(a) && IsNumber(b) ==>
      && r.Ok?
      && IsNumber(r.value)
      && (r.value.IntV? <==> a.IntV? && b.IntV?)
      && ToReal(r.value) == ToReal(a) - ToReal(b)
    ensures r.Err? <==> !(IsNumber(a) && IsNumber(b))
    ensures r.Err? ==> r.error == TypeError
  {
    if IsNumber(a) && IsNumber(b) then
      if a.IntV? && b.IntV? then Ok(IntV(a.i - b.i)) else Ok(RealV(ToReal(a) - ToReal(b)))
    else Err(TypeError)
  }

  /** `float(v)`, as `math.cos` converts its argument. */
  function AsFloat(v: Value): (r: Result<real>)
    ensures r.Ok? <==> IsNumber(v)
    ensures r.Ok? ==> r.value == ToReal(v)
  {
    if IsNumber(v) then Ok(ToReal(v)) else Err(TypeError)
  }

  // ---------------------------------------------------------------------
  // Floor division against its mathematical definition

  /** `k` is the floor of `x` when `k <= x < k + 1`. */
  lemma FloorUnique(x: real, k: int)
    requires k as real <= x < k as real + 1.0
    ensures x.Floor == k
  {
  }

  /** Python's int floor division is the floor of the exact quotient. */
  lemma FloorDivIntIsFloor(x: int, y: int)
    requires y != 0
    ensures FloorDivInt(x, y) == ((x as real) / (y as real)).Floor
  {
    var q := FloorDivInt(x, y);
    var xr, yr, qr := x as real, y as real, q as real;
    assert (y * q) as real == yr * qr;
    var quotient := xr / yr;
    assert (quotient - qr) * yr == xr - qr * yr;
    assert (quotient - qr - 1.0) * yr == xr - qr * yr - yr;
    if y > 0 {
      SignOfProduct(quotient - qr, yr);
      SignOfProduct(quotient - qr - 1.0, yr);
    } else {
      SignOfProduct(quotient - qr, -yr);
      SignOfProduct(quotient - qr - 1.0, -yr);
    }
    FloorUnique(quotient, q);
  }

  /** Equal factors give equal products (stated so the solver need not
      find it in normalised arithmetic). */
  lemma MulCongruence(a: real, b: real, c: real)
    requires b == c
    ensures a * b == a * c
  {
  }

  lemma MulNonNegative(a: real, b: real)
    requires a >= 0.0 && b >= 0.0
    ensures a * b >= 0.0
  {
  }

  lemma SignOfProduct(a: real, y: real)
    requires y > 0.0
    ensures a * y >= 0.0 ==> a >= 0.0
    ensures a * y < 0.0 ==> a < 0.0
    ensures a * y <= 0.0 ==> a <= 0.0
    ensures a * y > 0.0 ==> a > 0.0
  {
  }

  /** The remainder `x - y * q`, divided by `y`, is `x / y - q`; with `q` the
      floor of `x / y` that is the fractional part of `x / y`. */
  lemma RemainderOverDivisor(x: real, y: real, q: int)
    requires y != 0.0
    requires q == (x / y).Floor
    ensures (x - y * q as real) / y == Frac(x / y)
  {
    var qr := q as real;
    assert (x - y * qr) / y == x / y - (y * qr) / y;
    assert (y * qr) / y == qr;
  }

  /** Python's int remainder, divided by the divisor, is the fractional part
      of the exact quotient. */
  lemma ModIntIsFrac(x: int, y: int)
    requires y != 0
    ensures (ModInt(x, y) as real) / (y as real) == Frac((x as real) / (y as real))
  {
    var q := FloorDivInt(x, y);
    FloorDivIntIsFloor(x, y);
    assert ModInt(x, y) as real == x as real - (y as real) * (q as real);
    RemainderOverDivisor(x as real, y as real, q);
  }

  /** Shifting `x` by a whole number of periods `y` moves the floor of `x / y`
      by exactly that number. */
  lemma FloorDivIntShift(x: int, k: int, y: int)
    requires y != 0
    ensures FloorDivInt(x + k * y, y) == FloorDivInt(x, y) + k
  {
    var q := FloorDivInt(x, y);
    assert y * (q + k) == y * q + k * y;
    FloorDivIntUnique(x + k * y, y, q + k);
  }

  /** Python's `%` is periodic in its left operand with period the divisor. */
  lemma ModIntPeriodic(x: int, k: int, y: int)
    requires y != 0
    ensures ModInt(x + k * y, y) == ModInt(x, y)
  {
    FloorDivIntShift(x, k, y);
    assert y * (FloorDivInt(x, y) + k) == y * FloorDivInt(x, y) + k * y;
  }

  /** Chained floor division by two positive ints is floor division by their
      product. */
  lemma FloorDivIntChain(a: int, b: int, c: int)
    requires b > 0 && c > 0
    ensures FloorDivInt(FloorDivInt(a, b), c) == FloorDivInt(a, b * c)
  {
    var q1 := FloorDivInt(a, b);
    var q2 := FloorDivInt(q1, c);
    var r1 := a - b * q1;
    var r2 := q1 - c * q2;
    assert 0 <= r1 < b && 0 <= r2 < c;
    ChainAlgebra(b, c, q2, r2);
    ChainBound(b, c, r2);
    FloorDivIntUnique(a, b * c, q2);
  }

  /** `b * (c * q + r) == (b * c) * q + b * r`. */
  lemma ChainAlgebra(b: int, c: int, q: int, r: int)
    ensures b * (c * q + r) == (b * c) * q + b * r
  {
  }

  /** A remainder below `c`, scaled by `b`, leaves room for one more `b` below `b * c`. */
  lemma ChainBound(b: int, c: int, r: int)
    requires b > 0 && 0 <= r < c
    ensures 0 <= b * r && b * r + b <= b * c
  {
    assert b * (c - 1) - b * r == b * (c - 1 - r);
    MulNonNegativeInt(b, c - 1 - r);
    MulNonNegativeInt(b, r);
  }

  lemma MulNonNegativeInt(x: int, y: int)
    requires x >= 0 && y >= 0
    ensures x * y >= 0
  {
  }

  /** A quotient is determined by its defining bounds. */
  lemma FloorDivIntUnique(x: int, y: int, q: int)
    requires y != 0
    requires y > 0 ==> y * q <= x < y * q + y
    requires y < 0 ==> y * q + y < x <= y * q
    ensures FloorDivInt(x, y) == q
  {
    var p := FloorDivInt(x, y);
    var d := q - p;
    assert y * q - y * p == y * d;
    assert d >= 1 ==> (y > 0 ==> y * d >= y) && (y < 0 ==> y * d <= y);
    assert d <= -1 ==> (y > 0 ==> y * d <= -y) && (y < 0 ==> y * d >= -y);
  }
}
