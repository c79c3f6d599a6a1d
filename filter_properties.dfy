/**
 * The significance filter of the method loop and the percentages it works
 * with: which methods get a block, how raising the minimum %total acts, the
 * denominator, and how the printed percentages are rounded.
 */
module FilterProperties {
  import opened Formatting
  import opened ProfileModel
  import opened Ordering
  import opened GraphReport

  /** The filter in integer terms: %total is at least the minimum, exactly. */
  lemma {:induction false} ShownIff(totalTime: int, denominator: int, minPercent: int)
    requires denominator != 0
    ensures Shown(totalTime, denominator, minPercent) <==>
      if denominator > 0 then 10000 * totalTime >= minPercent * denominator
      else 10000 * totalTime <= minPercent * denominator
  {
    var r := totalTime as real / denominator as real;
    assert r * denominator as real == totalTime as real;
    var p := PercentValue(totalTime, denominator);
    var q := MinPercentValue(minPercent);
    assert p == r * 100.0 && q * 100.0 == minPercent as real;
    if denominator > 0 {
      calc {
        p < q;
      <==> r * 100.0 * denominator as real < q * denominator as real;
      <==> 100.0 * totalTime as real < q * denominator as real;
      <==> 10000.0 * totalTime as real < minPercent as real * denominator as real;
      }
    } else {
      calc {
        p < q;
      <==> r * 100.0 * denominator as real > q * denominator as real;
      <==> 100.0 * totalTime as real > q * denominator as real;
      <==> 10000.0 * totalTime as real > minPercent as real * denominator as real;
      }
    }
  }

  /** A method whose %total equals the minimum exactly is printed. */
  lemma {:induction false} BoundaryIsShown(totalTime: int, denominator: int, minPercent: int)
    requires denominator != 0
    requires PercentValue(totalTime, denominator) == MinPercentValue(minPercent)
    ensures Shown(totalTime, denominator, minPercent)
  {
  }

  /** A method that passes a minimum passes every lower one. */
  lemma {:induction false} ShownMonotone(totalTime: int, denominator: int, low: int, high: int)
    requires denominator != 0 && low <= high
    ensures Shown(totalTime, denominator, high) ==> Shown(totalTime, denominator, low)
  {
    ShownIff(totalTime, denominator, high);
    ShownIff(totalTime, denominator, low);
    if denominator > 0 {
      assert low * denominator <= high * denominator;
    } else {
      assert low * denominator >= high * denominator;
    }
  }

  /** The methods of `sorted` that pass the filter, in order. */
  function ShownMethods(sorted: seq<MethodInfo>, denominator: int, minPercent: int): seq<MethodInfo>
    requires denominator != 0
  {
    if sorted == [] then []
    else
      var m := sorted[|sorted| - 1];
      ShownMethods(sorted[..|sorted| - 1], denominator, minPercent)
        + (if Shown(m.totalTime, denominator, minPercent) then [m] else [])
  }

  /** A method gets a block exactly when it passes the filter. */
  lemma {:induction false} ShownMethodsMembers(sorted: seq<MethodInfo>, denominator: int, minPercent: int)
    requires denominator != 0
    ensures forall m :: m in ShownMethods(sorted, denominator, minPercent) <==>
      m in sorted && Shown(m.totalTime, denominator, minPercent)
  {
    if sorted != [] {
      var front := sorted[..|sorted| - 1];
      ShownMethodsMembers(front, denominator, minPercent);
      assert sorted == front + [sorted[|sorted| - 1]];
    }
  }

  /** Raising the minimum keeps a subset of the blocks, in the same order. */
  lemma {:induction false} RaisingMinimumShrinks(sorted: seq<MethodInfo>, denominator: int, low: int, high: int)
    requires denominator != 0 && low <= high
    ensures |ShownMethods(sorted, denominator, high)| <= |ShownMethods(sorted, denominator, low)|
    ensures multiset(ShownMethods(sorted, denominator, high)) <= multiset(ShownMethods(sorted, denominator, low))
  {
    if sorted != [] {
      RaisingMinimumShrinks(sorted[..|sorted| - 1], denominator, low, high);
      var m := sorted[|sorted| - 1];
      ShownMonotone(m.totalTime, denominator, low, high);
    }
  }

  // ---------------------------------------------------------------------------
  // The denominator and the percentages

  /** The denominator is the largest total time of the thread, or 0.01 when that is zero. */
  lemma {:induction false} DenominatorIsLargestTotal(methods: seq<MethodInfo>)
    requires methods != []
    ensures var d := Denominator(SortByTotalDescending(methods));
      d == (if MaxTotal(methods) == 0 then 1 else MaxTotal(methods))
  {
    TopIsLargest(methods);
  }

  /** `a == q * b + r` with `0 <= r < b` determines the quotient `a / b`. */
  lemma {:induction false} QuotientIs(a: int, b: int, q: int, r: int)
    requires b > 0 && 0 <= r < b && a == q * b + r
    ensures a / b == q
  {
    var d := a / b;
    var s := a % b;
    assert a == d * b + s;
    if q > d {
      AtLeastOnce(q - d, b);
    } else if q < d {
      AtLeastOnce(d - q, b);
    }
  }

  lemma {:induction false} AtLeastOnce(e: int, b: int)
    requires e >= 1 && b > 0
    ensures e * b >= b
  {
    assert e * b == b + (e - 1) * b;
  }

  /** The top method of a thread with positive total time is shown as 100.00%. */
  lemma {:induction false} TopMethodIsHundredPercent(time: int)
    requires time > 0
    ensures Percent(time, time) == Fixed2(false, 10000)
    ensures FormatFixed2(Percent(time, time)) == "100.00"
  {
    var n := 10000 * time;
    assert 2 * n + time == 10000 * (2 * time) + time;
    QuotientIs(2 * n + time, 2 * time, 10000, time);
    assert NatToDigits(100) == "100" by {
      assert NatToDigits(10) == "10";
    }
  }

  /** The signed value of a two-decimal number, as a number of units. */
  function Fixed2Value(f: Fixed2): real {
    (if f.negative then -(f.hundredths as real) else f.hundredths as real) / 100.0
  }

  /** A count within half of `m` of `10000 * t`, divided by `m`, is within half a unit of `10000 * t / m`. */
  lemma {:induction false} NearestQuotient(q: int, t: nat, m: int)
    requires m > 0 && 2 * Abs(q * m - 10000 * t) <= m
    ensures -0.5 <= q as real - 10000.0 * (t as real / m as real) <= 0.5
  {
    var a := t as real / m as real;
    var e := q as real - 10000.0 * a;
    assert a * m as real == t as real;
    assert e * m as real == (q * m - 10000 * t) as real;
    if 2.0 * e > 1.0 {
      assert 2.0 * e * m as real > m as real;
    }
  }

  /** The quotient of two integers is the quotient of their magnitudes, with its sign. */
  lemma {:induction false} QuotientSign(time: int, denominator: int)
    requires denominator != 0
    ensures time as real / denominator as real ==
      var a := Abs(time) as real / Abs(denominator) as real;
      if (time < 0) != (denominator < 0) then -a else a
  {
    var t := Abs(time) as real;
    var m := Abs(denominator) as real;
    if denominator < 0 {
      assert denominator as real == -m;
      assert t / (-m) == -(t / m);
    }
    if time < 0 {
      assert time as real == -t;
      assert (-t) / denominator as real == -(t / denominator as real);
    }
  }

  /** A signed count of hundredths within half a hundredth of a percentage, and with its sign, is nearest to it. */
  lemma {:induction false} NearestPercent(negative: bool, q: nat, time: int, denominator: int)
    requires denominator != 0
    requires negative <==> (time < 0 && denominator > 0) || (time > 0 && denominator < 0)
    requires 2 * Abs(q * Abs(denominator) - 10000 * Abs(time)) <= Abs(denominator)
    ensures var e := Fixed2Value(Fixed2(negative, q)) - PercentValue(time, denominator);
      -0.005 <= e <= 0.005
  {
    var m := Abs(denominator);
    NearestQuotient(q, Abs(time), m);
    QuotientSign(time, denominator);
    var a := Abs(time) as real / m as real;
    var x := 10000.0 * a;
    var exact := PercentValue(time, denominator);
    if negative {
      assert exact == -(100.0 * a);
      assert Fixed2Value(Fixed2(negative, q)) - exact == -(q as real - x) / 100.0;
    } else {
      if time == 0 {
        assert a == 0.0;
      }
      assert exact == 100.0 * a;
      assert Fixed2Value(Fixed2(negative, q)) - exact == (q as real - x) / 100.0;
    }
  }

  /** The printed percentage is the exact one rounded to the nearest hundredth. */
  lemma {:induction false} PercentIsNearest(time: int, denominator: int)
    requires denominator != 0
    ensures var e := Fixed2Value(Percent(time, denominator)) - PercentValue(time, denominator);
      -0.005 <= e <= 0.005
  {
    var p := Percent(time, denominator);
    PercentRounding(time, denominator);
    NearestPercent(p.negative, p.hundredths, time, denominator);
  }
}
