/** Rounding to the exchange's lot and tick grids: a step is a positive real, and a rounded value is an
    integer multiple of it. */
module Grid {
  import opened Basics

  function Multiple(n: int, step: real): real { n as real * step }

  /** The largest step multiple not above the value, and the smallest not below it. */
  function FloorTo(value: real, step: real): real
    requires step > 0.0
  {
    Multiple((value / step).Floor, step)
  }

  function CeilTo(value: real, step: real): real
    requires step > 0.0
  {
    if value <= 0.0 then step else Multiple(-(-(value / step)).Floor, step)
  }

  lemma MoreMultiples(m: int, n: int, step: real)
    requires step > 0.0
    ensures m < n ==> Multiple(m, step) + step <= Multiple(n, step)
    ensures m == n ==> Multiple(m, step) == Multiple(n, step)
  {
    if m < n {
      var gap := (n - m - 1) as real;
      assert gap >= 0.0 && gap * step >= 0.0;
      assert n as real == m as real + 1.0 + gap;
      assert (m as real + 1.0 + gap) * step == m as real * step + step + gap * step;
    }
  }

  lemma FloorToIs(value: real, step: real, n: int)
    requires step > 0.0
    ensures Multiple(n, step) <= value < Multiple(n, step) + step <==> (value / step).Floor == n
  {
    var x := value / step;
    assert value == x * step;
    var over := x - n as real;
    assert value - Multiple(n, step) == over * step;
    Signs(over, step);
    Signs(over - 1.0, step);
    assert (over - 1.0) * step == over * step - step;
  }

  lemma Signs(a: real, step: real)
    requires step > 0.0
    ensures a >= 0.0 <==> a * step >= 0.0
  {
    if a < 0.0 {
      assert (-a) * step > 0.0;
    }
  }

  lemma FloorBounds(value: real, step: real)
    requires step > 0.0
    ensures FloorTo(value, step) <= value < FloorTo(value, step) + step
  {
    FloorToIs(value, step, (value / step).Floor);
  }

  lemma CeilBounds(value: real, step: real)
    requires step > 0.0
    ensures value > 0.0 ==> value <= CeilTo(value, step) < value + step
    ensures CeilTo(value, step) >= step
  {
    if value > 0.0 {
      var n := (-(value / step)).Floor;
      assert (-value) / step == -(value / step) by {
        var x := value / step;
        assert value == x * step;
        assert -value == (-x) * step;
      }
      FloorToIs(-value, step, n);
      assert Multiple(-n, step) == -Multiple(n, step) by {
        assert (-n) as real == -(n as real);
        assert (-(n as real)) * step == -(n as real * step);
      }
      MoreMultiples(0, -n, step);
      MoreMultiples(-n, 0, step);
    }
  }

  /** The floor is the largest multiple not above the value. */
  lemma FloorIsLargest(value: real, step: real)
    requires step > 0.0
    ensures exists n: int :: FloorTo(value, step) == Multiple(n, step)
    ensures forall n: int :: Multiple(n, step) <= value ==> Multiple(n, step) <= FloorTo(value, step)
  {
    var floor := (value / step).Floor;
    FloorBounds(value, step);
    hide Multiple;
    forall n: int | Multiple(n, step) <= value ensures Multiple(n, step) <= FloorTo(value, step) {
      MoreMultiples(floor, n, step);
      MoreMultiples(n, floor, step);
    }
  }

  /** The ceiling is the smallest positive multiple not below it. */
  lemma CeilIsSmallest(value: real, step: real)
    requires step > 0.0
    ensures exists n: int :: n >= 1 && CeilTo(value, step) == Multiple(n, step)
    ensures forall n: int :: n >= 1 && Multiple(n, step) >= value ==> Multiple(n, step) >= CeilTo(value, step)
  {
    var ceil := if value <= 0.0 then 1 else -(-(value / step)).Floor;
    CeilBounds(value, step);
    Zero(step);
    One(step);
    hide Multiple;
    assert CeilTo(value, step) == Multiple(ceil, step);
    MoreMultiples(ceil, 0, step);
    MoreMultiples(0, ceil, step);
    forall n: int | n >= 1 && Multiple(n, step) >= value ensures Multiple(n, step) >= CeilTo(value, step) {
      MoreMultiples(n, ceil, step);
      MoreMultiples(ceil, n, step);
    }
  }

  lemma FloorIsMonotone(a: real, b: real, step: real)
    requires a <= b && step > 0.0
    ensures FloorTo(a, step) <= FloorTo(b, step)
  {
    var m, n := (a / step).Floor, (b / step).Floor;
    FloorBounds(a, step);
    FloorBounds(b, step);
    MoreMultiples(n, m, step);
    MoreMultiples(m, n, step);
  }

  lemma CeilIsMonotone(a: real, b: real, step: real)
    requires a <= b && step > 0.0
    ensures CeilTo(a, step) <= CeilTo(b, step)
  {
    CeilBounds(a, step);
    CeilBounds(b, step);
    if a > 0.0 {
      var m, n := -(-(a / step)).Floor, -(-(b / step)).Floor;
      MoreMultiples(n, m, step);
      MoreMultiples(m, n, step);
    }
  }

  lemma AddMultiples(m: int, n: int, step: real)
    ensures Multiple(m + n, step) == Multiple(m, step) + Multiple(n, step)
  {
    assert (m + n) as real == m as real + n as real;
    Distribute(m as real, n as real, step);
  }

  lemma Zero(step: real)
    ensures Multiple(0, step) == 0.0
  {}

  lemma One(step: real)
    ensures Multiple(1, step) == step
  {}
}
