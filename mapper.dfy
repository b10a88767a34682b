/**
 The clamped piecewise-linear map that `useTransform(value, inputs, outputs)`
 computes: linear between consecutive breakpoints, and held at the first or
 last output outside the breakpoint range.
 */
module Mapper {

  /** Breakpoints strictly increase. */
  predicate Increasing(xs: seq<real>)
  {
    forall i, j :: 0 <= i < j < |xs| ==> xs[i] < xs[j]
  }

  /** A breakpoint table: as many outputs as inputs, at least two, inputs increasing. */
  predicate Table(xs: seq<real>, ys: seq<real>)
  {
    |xs| == |ys| >= 2 && Increasing(xs)
  }

  /** y lies between a and b, in either order. */
  predicate Between(y: real, a: real, b: real)
  {
    (a <= y <= b) || (b <= y <= a)
  }

  function Least(ys: seq<real>): real
    requires |ys| > 0
  {
    if |ys| == 1 then ys[0] else var m := Least(ys[1..]); if ys[0] <= m then ys[0] else m
  }

  function Greatest(ys: seq<real>): real
    requires |ys| > 0
  {
    if |ys| == 1 then ys[0] else var m := Greatest(ys[1..]); if ys[0] >= m then ys[0] else m
  }

  /** Linear interpolation on one segment: between the two outputs, equal to each at its end. */
  function Lerp(x0: real, x1: real, y0: real, y1: real, x: real): (y: real)
    requires x0 < x1 && x0 <= x <= x1
    ensures Between(y, y0, y1)
    ensures x == x0 ==> y == y0
    ensures x == x1 ==> y == y1
  {
    var t := (x - x0) / (x1 - x0);
    assert 0.0 <= t <= 1.0 by {
      assert t * (x1 - x0) == x - x0;
      assert x - x0 <= x1 - x0;
      assert t * (x1 - x0) <= 1.0 * (x1 - x0);
    }
    FractionBetween(t, y0, y1 - y0);
    y0 + t * (y1 - y0)
  }

  /** A fraction t in [0, 1] of a non-negative d lies in [0, d]. */
  lemma FractionOf(t: real, d: real)
    requires 0.0 <= t <= 1.0 && 0.0 <= d
    ensures 0.0 <= t * d <= d
  {
    assert d - t * d == (1.0 - t) * d;
  }

  /** Going a fraction t in [0, 1] of a step d from a stays between a and a + d. */
  lemma FractionBetween(t: real, a: real, d: real)
    requires 0.0 <= t <= 1.0
    ensures Between(a + t * d, a, a + d)
  {
    if 0.0 <= d {
      FractionOf(t, d);
    } else {
      FractionOf(t, -d);
      assert t * (-d) == -(t * d);
    }
  }

  /**
   The clamped interpolation of x through the table (xs, ys): the first output
   at or below the first breakpoint, the last output at or beyond the last,
   and on every segment [xs[k], xs[k+1]] the linear interpolation of that
   segment; hence every breakpoint maps to its own output and the result lies
   between the least and the greatest output.
   */
  function Interpolate(x: real, xs: seq<real>, ys: seq<real>): (r: real)
    requires Table(xs, ys)
    ensures x <= xs[0] ==> r == ys[0]
    ensures x >= xs[|xs| - 1] ==> r == ys[|ys| - 1]
    ensures forall k :: 0 <= k < |xs| - 1 && xs[k] <= x <= xs[k + 1] ==>
      r == Lerp(xs[k], xs[k + 1], ys[k], ys[k + 1], x)
    ensures Least(ys) <= r <= Greatest(ys)
    decreases |xs|
  {
    if x <= xs[0] then ys[0]
    else if x < xs[1] then Lerp(xs[0], xs[1], ys[0], ys[1], x)
    else if |xs| == 2 then ys[1]
    else
      assert Table(xs[1..], ys[1..]);
      Interpolate(x, xs[1..], ys[1..])
  }

  /** Every breakpoint maps to its own output. */
  lemma InterpolateAtBreakpoint(xs: seq<real>, ys: seq<real>, k: nat)
    requires Table(xs, ys) && k < |xs|
    ensures Interpolate(xs[k], xs, ys) == ys[k]
  {
    if k < |xs| - 1 {
      assert xs[k] <= xs[k] <= xs[k + 1];
    }
  }
}
