/**
 Model of the relativity engine (components/RelativityEngine.tsx): the
 piecewise-linear dilation factor, the two clocks driven by a 100 ms timer,
 the pause/resume and reset controls, and the two pure clock formatters.
 Numbers are exact reals; the floating-point accumulation of 0.1 is not modelled.
 */
module Relativity {

  /** Bounds of the gravity slider (the range input's `min` and `max`). */
  const MinGravity: real := 100.0
  const MaxGravity: real := 200.0
  /** Ship seconds added by one firing of the 100 ms interval. */
  const TickSeconds: real := 0.1

  // ---------------------------------------------------------------------------
  // Dilation factor
  // ---------------------------------------------------------------------------

  /** `getTimeDilationFactor`: a factor of at least 1, exactly 1 up to g = 100. */
  function Dilation(g: real): (d: real)
    ensures d >= 1.0
    ensures d == 1.0 <==> g <= 100.0
  {
    if g <= 100.0 then 1.0
    else if g <= 120.0 then 1.0 + (g - 100.0) * 0.05
    else if g <= 150.0 then 2.0 + (g - 120.0) * 0.5
    else if g <= 180.0 then 17.0 + (g - 150.0) * 100.0
    else 3017.0 + (g - 180.0) * 10000.0
  }

  /** Slope of the linear piece of `Dilation` that contains g (pieces are closed on the right). */
  function Slope(g: real): (r: real)
    ensures 0.0 <= r <= 10000.0
    ensures r > 0.0 <==> g > 100.0
  {
    if g <= 100.0 then 0.0
    else if g <= 120.0 then 0.05
    else if g <= 150.0 then 0.5
    else if g <= 180.0 then 100.0
    else 10000.0
  }

  /** The slopes of the pieces increase: 0 < 0.05 < 0.5 < 100 < 10000. */
  lemma SlopeMonotone(a: real, b: real)
    requires a <= b
    ensures Slope(a) <= Slope(b)
  {
  }

  /** Each piece, evaluated at the breakpoint that closes it, agrees with the next piece there. */
  lemma DilationBreakpoints(h: real)
    ensures Dilation(100.0) == 1.0 && (0.0 < h <= 20.0 ==> Dilation(100.0 + h) == 1.0 + h * 0.05)
    ensures Dilation(120.0) == 2.0 && (0.0 < h <= 30.0 ==> Dilation(120.0 + h) == 2.0 + h * 0.5)
    ensures Dilation(150.0) == 17.0 && (0.0 < h <= 30.0 ==> Dilation(150.0 + h) == 17.0 + h * 100.0)
    ensures Dilation(180.0) == 3017.0 && (0.0 < h ==> Dilation(180.0 + h) == 3017.0 + h * 10000.0)
    ensures Dilation(130.0) == 7.0
  {
  }

  /**
   Convexity: the rise of `Dilation` over [a, b] lies between the slope of the
   piece holding a and the slope of the piece holding b, times the run.
   */
  lemma DilationChord(a: real, b: real)
    requires a <= b
    ensures Slope(a) * (b - a) <= Dilation(b) - Dilation(a) <= Slope(b) * (b - a)
  {
  }

  /** Dilation is non-decreasing everywhere. */
  lemma DilationMonotone(a: real, b: real)
    requires a <= b
    ensures Dilation(a) <= Dilation(b)
  {
    DilationChord(a, b);
  }

  /** Dilation is strictly increasing above g = 100. */
  lemma DilationStrictlyIncreasing(a: real, b: real)
    requires 100.0 <= a < b
    ensures Dilation(a) < Dilation(b)
  {
    var m := (a + b) / 2.0;
    DilationChord(a, m);
    DilationChord(m, b);
    assert Slope(m) > 0.0;
  }

  /** Continuity (Lipschitz with constant 10000): nearby gravities give nearby factors. */
  lemma DilationLipschitz(a: real, b: real)
    requires a <= b
    ensures 0.0 <= Dilation(b) - Dilation(a) <= 10000.0 * (b - a)
  {
    DilationChord(a, b);
    assert Slope(b) <= 10000.0;
  }

  /** `isExtreme` (gravity above 150): exactly the factors above 17. */
  predicate IsExtreme(g: real)
    ensures IsExtreme(g) <==> Dilation(g) > 17.0
  {
    g > 150.0
  }

  /** `isCritical` (gravity above 180): every critical gravity is also extreme. */
  predicate IsCritical(g: real)
    ensures IsCritical(g) ==> IsExtreme(g)
  {
    g > 180.0
  }

  /** The two warning levels are exactly the factors above 17 and above 3017, and critical implies extreme. */
  lemma WarningLevels(g: real)
    ensures IsCritical(g) ==> IsExtreme(g)
    ensures IsExtreme(g) <==> Dilation(g) > 17.0
    ensures IsCritical(g) <==> Dilation(g) > 3017.0
  {
    if g <= 150.0 {
      DilationMonotone(g, 150.0);
    } else if g <= 180.0 {
      DilationMonotone(g, 180.0);
    }
  }

  /** The factor readout switches from fixed to exponential notation exactly at g = 159.83. */
  lemma ExponentialNotationThreshold(g: real)
    ensures Dilation(g) < 1000.0 <==> g < 159.83
  {
    if g < 159.83 {
      DilationStrictlyIncreasing(if g < 100.0 then 100.0 else g, 159.83);
      DilationMonotone(g, if g < 100.0 then 100.0 else g);
    } else if g > 159.83 {
      DilationStrictlyIncreasing(159.83, g);
    }
  }

  // ---------------------------------------------------------------------------
  // Clock state
  // ---------------------------------------------------------------------------

  /** `shipSeconds`, `earthSeconds`, `gravityRef.current` and `isRunning`. */
  datatype Clocks = Clocks(ship: real, earth: real, gravity: real, running: bool)

  /** The state invariant: earth time never lags ship time, gravity is on the slider. */
  predicate Consistent(c: Clocks)
  {
    0.0 <= c.ship <= c.earth && MinGravity <= c.gravity <= MaxGravity
  }

  /** The mounted component: both clocks at 0, gravity 100, running. */
  function Initial(): (c: Clocks)
    ensures Consistent(c)
  {
    Clocks(0.0, 0.0, 100.0, true)
  }

  /**
   One firing of the interval. Nothing fires while paused; otherwise ship time
   gains 0.1 s and earth time 0.1 s times the factor of the gravity held at
   firing time.
   */
  function TickStep(c: Clocks): (r: Clocks)
    ensures Consistent(c) ==> Consistent(r)
    ensures r.earth - c.earth >= r.ship - c.ship >= 0.0
    ensures r.gravity == c.gravity && r.running == c.running
  {
    if c.running then
      c.(ship := c.ship + TickSeconds, earth := c.earth + TickSeconds * Dilation(c.gravity))
    else c
  }

  /** `resetClocks`. */
  function ResetStep(c: Clocks): (r: Clocks)
    ensures Consistent(c) ==> Consistent(r)
  {
    c.(ship := 0.0, earth := 0.0)
  }

  /** The slider's `onChange`, which the effect copies into `gravityRef.current`. */
  function SetGravityStep(c: Clocks, g: real): (r: Clocks)
    requires MinGravity <= g <= MaxGravity
    ensures Consistent(c) ==> Consistent(r)
  {
    c.(gravity := g)
  }

  /** The Pause/Resume button. */
  function ToggleStep(c: Clocks): (r: Clocks)
    ensures Consistent(c) ==> Consistent(r)
  {
    c.(running := !c.running)
  }

  /** Reset clears exactly the clocks; the controls leave the clocks alone. */
  lemma ControlsFrame(c: Clocks, g: real)
    requires MinGravity <= g <= MaxGravity
    ensures ResetStep(c) == Clocks(0.0, 0.0, c.gravity, c.running)
    ensures ToggleStep(c).ship == c.ship && ToggleStep(c).earth == c.earth
    ensures SetGravityStep(c, g).ship == c.ship && SetGravityStep(c, g).earth == c.earth
    ensures ToggleStep(ToggleStep(c)) == c
  {
  }

  /**
   The gravity is read when the timer fires, not when it was started: a change
   of gravity between two ticks shows in the very next tick.
   */
  lemma TickReadsCurrentGravity(c: Clocks, g: real)
    requires MinGravity <= g <= MaxGravity && c.running
    ensures TickStep(SetGravityStep(c, g)).earth == c.earth + TickSeconds * Dilation(g)
    ensures TickStep(SetGravityStep(c, g)).ship == c.ship + TickSeconds
  {
  }

  /** n firings of the interval in a row. */
  function Ticks(c: Clocks, n: nat): Clocks
  {
    if n == 0 then c else TickStep(Ticks(c, n - 1))
  }

  /** After n ticks at constant gravity, ship time gained 0.1·n and earth time 0.1·n·dilation(g). */
  lemma TicksAtConstantGravity(c: Clocks, n: nat)
    requires c.running
    ensures Ticks(c, n).ship == c.ship + TickSeconds * (n as real)
    ensures Ticks(c, n).earth == c.earth + TickSeconds * (n as real) * Dilation(c.gravity)
    ensures Ticks(c, n).gravity == c.gravity && Ticks(c, n).running
  {
    var d := Dilation(c.gravity);
    TicksAtRate(c, n, TickSeconds * d);
    Reassociate(n as real, d);
  }

  /** k·(0.1·d) = 0.1·k·d. */
  lemma Reassociate(k: real, d: real)
    ensures k * (TickSeconds * d) == TickSeconds * k * d
  {
  }

  /** `TicksAtConstantGravity` with the per-tick earth increment named e. */
  lemma TicksAtRate(c: Clocks, n: nat, e: real)
    requires c.running && e == TickSeconds * Dilation(c.gravity)
    ensures Ticks(c, n).ship == c.ship + TickSeconds * (n as real)
    ensures Ticks(c, n).earth == c.earth + (n as real) * e
    ensures Ticks(c, n).gravity == c.gravity && Ticks(c, n).running
  {
    TicksSum(c, n, e);
    RepeatedIsProduct(n, e);
  }

  /** e added to itself n times. */
  function Repeated(n: nat, e: real): real
  {
    if n == 0 then 0.0 else Repeated(n - 1, e) + e
  }

  /** Adding e n times is multiplying it by n. */
  lemma {:induction false} RepeatedIsProduct(n: nat, e: real)
    ensures Repeated(n, e) == (n as real) * e
  {
    if n > 0 {
      RepeatedIsProduct(n - 1, e);
      assert ((n - 1) as real) * e + e == (n as real) * e;
    }
  }

  /** Each of n running ticks adds 0.1 to ship time and e to earth time, at unchanged gravity. */
  lemma {:induction false} TicksSum(c: Clocks, n: nat, e: real)
    requires c.running && e == TickSeconds * Dilation(c.gravity)
    ensures Ticks(c, n).ship == c.ship + TickSeconds * (n as real)
    ensures Ticks(c, n).earth == c.earth + Repeated(n, e)
    ensures Ticks(c, n).gravity == c.gravity && Ticks(c, n).running
  {
    if n > 0 {
      TicksSum(c, n - 1, e);
      TickAdds(Ticks(c, n - 1), e);
    }
  }

  /** One running tick adds 0.1 to ship time and the named increment e to earth time. */
  lemma TickAdds(c: Clocks, e: real)
    requires c.running && e == TickSeconds * Dilation(c.gravity)
    ensures TickStep(c) == c.(ship := c.ship + TickSeconds, earth := c.earth + e)
  {
  }

  /** While paused, any number of ticks leaves the state as it was. */
  lemma {:induction false} PausedTicks(c: Clocks, n: nat)
    requires !c.running
    ensures Ticks(c, n) == c
  {
    if n > 0 {
      PausedTicks(c, n - 1);
    }
  }

  /** n ticks at g = 100 from the mounted state, then n ticks at g = 150. */
  lemma TwoPhases(n: nat)
    ensures Ticks(Initial(), n).ship == 0.1 * (n as real) && Ticks(Initial(), n).earth == 0.1 * (n as real)
    ensures Ticks(SetGravityStep(Ticks(Initial(), n), 150.0), n).ship == 0.2 * (n as real)
    ensures Ticks(SetGravityStep(Ticks(Initial(), n), 150.0), n).earth == 1.8 * (n as real)
  {
    var c0 := Initial();
    TicksAtRate(c0, n, 0.1);
    var c2 := SetGravityStep(Ticks(c0, n), 150.0);
    assert Dilation(c2.gravity) == 17.0;
    TicksAtRate(c2, n, 1.7);
  }

  /** The worked scenario: 10 ticks at g = 100, then 10 ticks at g = 150. */
  lemma TwoPhaseScenario()
    ensures Ticks(Initial(), 10).ship == 1.0 && Ticks(Initial(), 10).earth == 1.0
    ensures Ticks(SetGravityStep(Ticks(Initial(), 10), 150.0), 10).ship == 2.0
    ensures Ticks(SetGravityStep(Ticks(Initial(), 10), 150.0), 10).earth == 18.0
  {
    TwoPhases(10);
  }

  /** The user's and the timer's actions on the simulator. */
  datatype ClockEvent = Tick | Reset | SetGravity(g: real) | Toggle

  /** Slider writes stay within the slider's bounds. */
  predicate ValidEvents(evs: seq<ClockEvent>)
  {
    forall i :: 0 <= i < |evs| ==> evs[i].SetGravity? ==> MinGravity <= evs[i].g <= MaxGravity
  }

  function Step(c: Clocks, e: ClockEvent): Clocks
    requires e.SetGravity? ==> MinGravity <= e.g <= MaxGravity
  {
    match e
    case Tick => TickStep(c)
    case Reset => ResetStep(c)
    case SetGravity(g) => SetGravityStep(c, g)
    case Toggle => ToggleStep(c)
  }

  function Run(c: Clocks, evs: seq<ClockEvent>): Clocks
    requires ValidEvents(evs)
    decreases |evs|
  {
    if evs == [] then c else Run(Step(c, evs[0]), evs[1..])
  }

  /** In every reachable state earth time is at least ship time. */
  lemma {:induction false} RunPreservesConsistent(c: Clocks, evs: seq<ClockEvent>)
    requires Consistent(c) && ValidEvents(evs)
    ensures Consistent(Run(c, evs))
    ensures Run(c, evs).ship <= Run(c, evs).earth
    decreases |evs|
  {
    if evs != [] {
      assert ValidEvents(evs[1..]) by {
        forall i | 0 <= i < |evs| - 1 ensures evs[1..][i] == evs[i + 1] { }
      }
      RunPreservesConsistent(Step(c, evs[0]), evs[1..]);
    }
  }

  // ---------------------------------------------------------------------------
  // Formatters
  // ---------------------------------------------------------------------------

  /** The quotient inside JavaScript's `%`, truncated toward zero (as `x % m` at components/RelativityEngine.tsx:31-33 computes it). */
  function Trunc(x: real): (r: int)
    ensures 0.0 <= x ==> 0 <= r && (r as real) <= x < (r as real) + 1.0
    ensures x < 0.0 ==> r <= 0 && (r as real) - 1.0 < x <= (r as real)
  {
    if x >= 0.0 then x.Floor else -((-x).Floor)
  }

  /** Multiplying both sides by a positive real keeps an order. */
  lemma ScaleOrder(a: real, b: real, m: real)
    requires 0.0 < m
    ensures a <= b ==> a * m <= b * m
    ensures a < b ==> a * m < b * m
  {
    assert b * m - a * m == (b - a) * m;
  }

  /**
   JavaScript's `%` on numbers: x minus a whole multiple of m, the quotient
   truncated toward zero, so that for a positive modulus the remainder has
   the sign of the dividend and a magnitude below m.
   */
  function JsRem(x: real, m: real): (r: real)
    requires m != 0.0
    ensures 0.0 < m && 0.0 <= x ==> 0.0 <= r < m
    ensures 0.0 < m && x < 0.0 ==> -m < r <= 0.0
  {
    var q := Trunc(x / m) as real;
    if 0.0 < m && 0.0 <= x then
      assert 0.0 <= x / m;
      FractionBelow(x, m, q);
      x - m * q
    else if 0.0 < m then
      assert x / m < 0.0;
      FractionAbove(x, m, q);
      x - m * q
    else
      x - m * q
  }

  /** A quotient rounded down to q leaves a remainder in [0, m). */
  lemma FractionBelow(x: real, m: real, q: real)
    requires 0.0 < m && q <= x / m < q + 1.0
    ensures 0.0 <= x - m * q < m
  {
    var d := x / m - q;
    assert x - m * q == d * m by {
      assert (x / m) * m == x;
    }
    ScaleOrder(0.0, d, m);
    ScaleOrder(d, 1.0, m);
    assert 0.0 <= d * m < m;
  }

  /** A quotient rounded up to q leaves a remainder in (-m, 0]. */
  lemma FractionAbove(x: real, m: real, q: real)
    requires 0.0 < m && q - 1.0 < x / m <= q
    ensures -m < x - m * q <= 0.0
  {
    var d := q - x / m;
    assert x - m * q == -(d * m) by {
      assert (x / m) * m == x;
    }
    ScaleOrder(0.0, d, m);
    ScaleOrder(d, 1.0, m);
    assert 0.0 <= d * m < m;
  }



  /** The fields of `formatTime`'s `HH:MM:SS.d` text (padding to two digits is not modelled). */
  datatype ShipReading = ShipReading(hours: int, minutes: int, seconds: int, tenths: int)

  /** `formatTime`. */
  function FormatTime(t: real): (r: ShipReading)
    ensures 0.0 <= t ==> 0 <= r.hours && 0 <= r.minutes < 60 && 0 <= r.seconds < 60 && 0 <= r.tenths < 10
  {
    var r := ShipReading((t / 3600.0).Floor,
                         (JsRem(t, 3600.0) / 60.0).Floor,
                         JsRem(t, 60.0).Floor,
                         (JsRem(t, 1.0) * 10.0).Floor);
    if 0.0 <= t then
      DivideBounds(t, 3600.0, 0.0, t + 1.0);
      DivideBounds(JsRem(t, 3600.0), 60.0, 0.0, 60.0);
      r
    else
      r
  }

  /** The seconds, to the tenth, that a reading denotes. */
  function ReadingSeconds(r: ShipReading): real
  {
    (r.hours * 3600 + r.minutes * 60 + r.seconds) as real + (r.tenths as real) / 10.0
  }

  /** For 0 <= t and 0 < k: floor(t / k) is the integer quotient of floor(t) by k. */
  lemma FloorQuotient(t: real, k: int)
    requires 0.0 <= t && 0 < k
    ensures (t / (k as real)).Floor == t.Floor / k
  {
    var n := t.Floor;
    var q, r := n / k, n % k;
    assert n == q * k + r && 0 <= r < k;
    assert (q * k) as real <= t < (q * k + k) as real;
    assert (q as real) * (k as real) <= t < ((q + 1) as real) * (k as real);
    DivideBounds(t, k as real, q as real, (q + 1) as real);
  }

  /** Dividing a bracketed quantity by a positive real brackets the quotient. */
  lemma DivideBounds(t: real, k: real, lo: real, hi: real)
    requires 0.0 < k && lo * k <= t < hi * k
    ensures lo <= t / k < hi
  {
    var x := t / k;
    assert x * k == t;
  }

  /** For 0 <= t and 0 < k: JavaScript's t % k has floor(t) % k as its floor. */
  lemma RemFloor(t: real, k: int)
    requires 0.0 <= t && 0 < k
    ensures 0.0 <= JsRem(t, k as real) < k as real
    ensures JsRem(t, k as real).Floor == t.Floor % k
    ensures JsRem(t, k as real) - (JsRem(t, k as real).Floor as real) == t - (t.Floor as real)
  {
    FloorQuotient(t, k);
    var q := t.Floor / k;
    assert Trunc(t / (k as real)) == q;
    assert JsRem(t, k as real) == t - (k as real) * (q as real);
    assert (k as real) * (q as real) == (k * q) as real;
    assert t.Floor == k * q + t.Floor % k;
  }

  /** Hours, minutes and seconds of a whole number of seconds add back up to it. */
  lemma ClockDigits(n: int)
    requires 0 <= n
    ensures 0 <= (n % 3600) / 60 < 60 && 0 <= n % 60 < 60
    ensures (n / 3600) * 3600 + ((n % 3600) / 60) * 60 + n % 60 == n
  {
    var h, r := n / 3600, n % 3600;
    var m, s := r / 60, r % 60;
    assert n == 3600 * h + r && 0 <= r < 3600;
    assert r == 60 * m + s && 0 <= s < 60;
    SecondsOfMinute(n, 60 * h + m, s);
  }

  /** Writing x as 60·q + s with s in [0, 60) determines x % 60. */
  lemma SecondsOfMinute(x: int, q: int, s: int)
    requires x == 60 * q + s && 0 <= s < 60
    ensures x % 60 == s
  {
    var q', s' := x / 60, x % 60;
    assert 60 * (q - q') == s' - s;
  }

  /** The tenths digit of a non-negative time is its fractional part rounded down to a tenth. */
  lemma TenthsDigit(t: real)
    requires 0.0 <= t
    ensures var k := FormatTime(t).tenths;
      && 0 <= k < 10
      && (k as real) / 10.0 <= t - (t.Floor as real) < (k as real) / 10.0 + 0.1
  {
    RemFloor(t, 1);
    var f := t - (t.Floor as real);
    assert JsRem(t, 1.0) == f && 0.0 <= f < 1.0;
    var k := (f * 10.0).Floor;
    assert FormatTime(t).tenths == k;
    assert (k as real) <= f * 10.0 < (k as real) + 1.0;
  }

  /**
   For a non-negative time, `formatTime` gives minutes and seconds in [0, 59],
   tenths in [0, 9], hours = floor(t / 3600), and the reading is t rounded down
   to the tenth of a second.
   */
  lemma FormatTimeFaithful(t: real)
    requires 0.0 <= t
    ensures var r := FormatTime(t);
      && r.hours == t.Floor / 3600
      && 0 <= r.minutes < 60 && 0 <= r.seconds < 60 && 0 <= r.tenths < 10
      && r.hours * 3600 + r.minutes * 60 + r.seconds == t.Floor
      && ReadingSeconds(r) <= t < ReadingSeconds(r) + 0.1
  {
    var r := FormatTime(t);
    var n := t.Floor;
    FloorQuotient(t, 3600);
    RemFloor(t, 3600);
    RemFloor(t, 60);
    FloorQuotient(JsRem(t, 3600.0), 60);
    assert r.hours == n / 3600;
    assert r.minutes == (n % 3600) / 60;
    assert r.seconds == n % 60;
    ClockDigits(n);
    TenthsDigit(t);
  }

  /** Units of `formatEarthTime`. */
  datatype Unit = Sec | Min | Hrs | Days | Yrs

  /** Seconds per unit (a year is 365 days). */
  function UnitSeconds(u: Unit): real
  {
    match u
    case Sec => 1.0
    case Min => 60.0
    case Hrs => 3600.0
    case Days => 86400.0
    case Yrs => 31536000.0
  }

  /** The value, unit and `toFixed` digit count of `formatEarthTime` (the digit string is not modelled). */
  datatype EarthReading = EarthReading(value: real, unit: Unit, decimals: nat)

  /** `formatEarthTime`: the value in the chosen unit converts back to t. */
  function FormatEarthTime(t: real): (r: EarthReading)
    ensures r.value * UnitSeconds(r.unit) == t
    ensures r.unit != Sec ==> 1.0 <= r.value
  {
    if t < 60.0 then EarthReading(t, Sec, 1)
    else if t < 3600.0 then EarthReading(t / 60.0, Min, 1)
    else if t < 86400.0 then EarthReading(t / 3600.0, Hrs, 2)
    else if t < 31536000.0 then EarthReading(t / 86400.0, Days, 2)
    else EarthReading(t / 31536000.0, Yrs, 2)
  }

  /**
   The unit is chosen by magnitude, the value converts back to t exactly, and
   every unit above seconds shows a value of at least 1 and below the next unit.
   */
  lemma EarthReadingFaithful(t: real)
    ensures var r := FormatEarthTime(t);
      && (r.unit == Sec <==> t < 60.0)
      && (r.unit == Min <==> 60.0 <= t < 3600.0)
      && (r.unit == Hrs <==> 3600.0 <= t < 86400.0)
      && (r.unit == Days <==> 86400.0 <= t < 31536000.0)
      && (r.unit == Yrs <==> 31536000.0 <= t)
      && r.value * UnitSeconds(r.unit) == t
      && (r.unit != Sec ==> 1.0 <= r.value)
      && (r.unit == Min ==> r.value < 60.0)
      && (r.unit == Hrs ==> r.value < 24.0)
      && (r.unit == Days ==> r.value < 365.0)
      && r.decimals == (if r.unit == Sec || r.unit == Min then 1 else 2)
  {
  }

  /** The worked unit choices: 45 s, 125 s, 7200 s, 172800 s and 63072000 s. */
  lemma EarthReadingExamples()
    ensures FormatEarthTime(45.0) == EarthReading(45.0, Sec, 1)
    ensures FormatEarthTime(125.0).unit == Min && 2.05 <= FormatEarthTime(125.0).value < 2.15
    ensures FormatEarthTime(7200.0) == EarthReading(2.0, Hrs, 2)
    ensures FormatEarthTime(172800.0) == EarthReading(2.0, Days, 2)
    ensures FormatEarthTime(63072000.0) == EarthReading(2.0, Yrs, 2)
  {
  }

  // ---------------------------------------------------------------------------
  // The component
  // ---------------------------------------------------------------------------

  /**
   The component's mutable state. `gravity` is the shared cell that the
   interval callback dereferences at every firing (`gravityRef.current`).
   */
  class RelativityEngine {
    var ship: real
    var earth: real
    var gravity: real
    var running: bool

    function State(): Clocks
      reads this
    {
      Clocks(ship, earth, gravity, running)
    }

    ghost predicate Valid()
      reads this
    {
      Consistent(State())
    }

    constructor ()
      ensures Valid() && State() == Initial()
      ensures ship == 0.0 && earth == 0.0 && gravity == 100.0 && running
    {
      ship, earth, gravity, running := 0.0, 0.0, 100.0, true;
    }

    /** The interval callback; while paused no interval exists, so nothing happens. */
    method Tick()
      requires Valid()
      modifies this
      ensures Valid() && State() == TickStep(old(State()))
      ensures old(running) ==> ship == old(ship) + TickSeconds && earth == old(earth) + TickSeconds * Dilation(old(gravity))
      ensures !old(running) ==> ship == old(ship) && earth == old(earth)
      ensures gravity == old(gravity) && running == old(running)
    {
      if running {
        var currentDilation := Dilation(gravity);
        ship := ship + TickSeconds;
        earth := earth + TickSeconds * currentDilation;
      }
    }

    /** `resetClocks`. */
    method Reset()
      requires Valid()
      modifies this
      ensures Valid() && State() == ResetStep(old(State()))
      ensures ship == 0.0 && earth == 0.0 && gravity == old(gravity) && running == old(running)
    {
      ship := 0.0;
      earth := 0.0;
    }

    /** The slider's input, already within the slider's bounds. */
    method SetGravity(g: real)
      requires Valid() && MinGravity <= g <= MaxGravity
      modifies this
      ensures Valid() && State() == SetGravityStep(old(State()), g)
      ensures gravity == g && ship == old(ship) && earth == old(earth) && running == old(running)
    {
      gravity := g;
    }

    /** The Pause/Resume button. */
    method Toggle()
      requires Valid()
      modifies this
      ensures Valid() && State() == ToggleStep(old(State()))
      ensures running == !old(running) && ship == old(ship) && earth == old(earth) && gravity == old(gravity)
    {
      running := !running;
    }
  }
}
