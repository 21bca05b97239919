/**
 * The retry decorator of postgres_to_es/backoff_dec.py. Durations are exact
 * `real` seconds; the wrapped call's successive outcomes are given as a
 * sequence, and `time.sleep` is recorded as the sequence of requested pauses.
 */
module Backoff {

  /** The decorator's default parameters. */
  const DefaultStart: real := 0.1
  const DefaultFactor: real := 2.0
  const DefaultBorder: real := 10.0

  /** What one call of the wrapped function does. */
  datatype Attempt<T> = Raised | Returned(value: T)

  /** `factor ** n`. */
  function Pow(factor: real, n: nat): real
  {
    if n == 0 then 1.0 else factor * Pow(factor, n - 1)
  }

  /** The pause after the `n`-th consecutive failure: `start * factor ** n`,
    * replaced by `border` when it reaches `border`. */
  function Delay(start: real, factor: real, border: real, n: nat): (t: real)
    ensures t <= border
    ensures t == border || t == start * Pow(factor, n)
    ensures start * Pow(factor, n) < border ==> t == start * Pow(factor, n)
  {
    var t := start * Pow(factor, n);
    if t >= border then border else t
  }

  /** Lines 35-37 of `inner`: the pause after failure `n`, computed in place. */
  method Pause(start: real, factor: real, border: real, n: nat) returns (t: real)
    ensures t == Delay(start, factor, border, n)
  {
    t := start * Pow(factor, n);
    if t >= border {
      t := border;
    }
  }

  /** The pauses taken after failures 1 .. k, in order. */
  function Schedule(start: real, factor: real, border: real, k: nat): (s: seq<real>)
    ensures |s| == k
    ensures forall i :: 0 <= i < k ==> s[i] == Delay(start, factor, border, i + 1)
  {
    if k == 0 then [] else Schedule(start, factor, border, k - 1) + [Delay(start, factor, border, k)]
  }

  /** Index of the first call that returns. */
  function FirstSuccess<T>(outcomes: seq<Attempt<T>>): (k: nat)
    requires |outcomes| > 0 && outcomes[|outcomes| - 1].Returned?
    ensures k < |outcomes| && outcomes[k].Returned?
    ensures forall j :: 0 <= j < k ==> outcomes[j].Raised?
  {
    if outcomes[0].Returned? then 0 else 1 + FirstSuccess(outcomes[1..])
  }

  /** `|x|`. */
  function Abs(x: real): real
  {
    if x < 0.0 then -x else x
  }

  /** 2 ** 1024: the first power of two beyond the largest finite double. */
  function FloatCeiling(): real
  {
    Pow(2.0, 1024)
  }

  /** Computing `start_sleep_time * factor ** n` raises OverflowError: with an
    * int `factor` the exact int `factor ** n` cannot be converted to float for
    * the product with the float start, and with a float `factor` the power
    * itself overflows. Either happens once `|factor ** n|` reaches 2 ** 1024. */
  predicate Overflows(factor: real, n: nat)
  {
    Abs(Pow(factor, n)) >= FloatCeiling()
  }

  /** 2 ** 63 nanoseconds, in seconds: `time.sleep` turns its argument into a
    * signed 64-bit count of nanoseconds. */
  const SleepCeiling: real := 9223372036.854775808

  /** `time.sleep(t)` raises OverflowError converting `t` to nanoseconds: the
    * count falls outside [-2 ** 63, 2 ** 63). */
  predicate SleepOverflows(t: real)
  {
    t >= SleepCeiling || t < -SleepCeiling
  }

  /** The pause after failure `j` can be computed and slept: computing it does
    * not overflow, converting it to nanoseconds does not overflow, and it is
    * not negative (`time.sleep` raises ValueError on a negative length once
    * the conversion succeeds). */
  predicate PauseOk(start: real, factor: real, border: real, j: nat)
  {
    && !Overflows(factor, j)
    && !SleepOverflows(Delay(start, factor, border, j))
    && Delay(start, factor, border, j) >= 0.0
  }

  /** The pauses after failures 1 .. k can all be computed and slept. */
  predicate PausesFit(start: real, factor: real, border: real, k: nat)
  {
    forall j :: 1 <= j <= k ==> PauseOk(start, factor, border, j)
  }

  /** How `inner` ends: the wrapped call's value, the OverflowError raised
    * while computing a pause or by `time.sleep` on a pause too long for it,
    * or the ValueError `time.sleep` raises on a negative pause. Both errors
    * are raised inside the `except` handler, so they escape. */
  datatype RetryEnd<T> = Succeeded(value: T) | OverflowError | ValueError

  /** `inner` from call `n` on, every earlier call having raised and every
    * pause so far having been slept. The number is the failure count `n`
    * when it stops. */
  function InnerFrom<T>(outcomes: seq<Attempt<T>>, start: real, factor: real, border: real, n: nat)
      : (r: (RetryEnd<T>, nat))
    requires n < |outcomes| && outcomes[|outcomes| - 1].Returned?
    requires forall j :: 0 <= j < n ==> outcomes[j].Raised?
    requires PausesFit(start, factor, border, n)
    ensures n <= r.1 <= FirstSuccess(outcomes)
    ensures r.0.Succeeded? <==> PausesFit(start, factor, border, FirstSuccess(outcomes))
    ensures r.0.Succeeded? ==> r.1 == FirstSuccess(outcomes) && r.0.value == outcomes[r.1].value
    ensures !r.0.Succeeded? ==>
              && n < r.1 && PausesFit(start, factor, border, r.1 - 1) && !PauseOk(start, factor, border, r.1)
              && (r.0.OverflowError? <==>
                    Overflows(factor, r.1) || SleepOverflows(Delay(start, factor, border, r.1)))
              && (r.0.ValueError? ==> Delay(start, factor, border, r.1) < 0.0)
    decreases |outcomes| - n
  {
    if outcomes[n].Returned? then (Succeeded(outcomes[n].value), n)
    else if Overflows(factor, n + 1) then
      assert !PauseOk(start, factor, border, n + 1);
      (OverflowError, n + 1)
    else if SleepOverflows(Delay(start, factor, border, n + 1)) then
      assert !PauseOk(start, factor, border, n + 1);
      (OverflowError, n + 1)
    else if Delay(start, factor, border, n + 1) < 0.0 then
      assert !PauseOk(start, factor, border, n + 1);
      (ValueError, n + 1)
    else InnerFrom(outcomes, start, factor, border, n + 1)
  }

  /** `inner` as written: it returns the first success when every pause before
    * it can be computed and slept; otherwise it raises at the first failure
    * whose pause overflows or is too long to sleep (OverflowError), or is
    * negative (ValueError). */
  function Inner<T>(outcomes: seq<Attempt<T>>, start: real, factor: real, border: real): (r: (RetryEnd<T>, nat))
    requires |outcomes| > 0 && outcomes[|outcomes| - 1].Returned?
    ensures r.0.Succeeded? <==> PausesFit(start, factor, border, FirstSuccess(outcomes))
    ensures r.0.Succeeded? ==> r == (Succeeded(outcomes[FirstSuccess(outcomes)].value), FirstSuccess(outcomes))
    ensures !r.0.Succeeded? ==>
              && 0 < r.1 <= FirstSuccess(outcomes)
              && PausesFit(start, factor, border, r.1 - 1) && !PauseOk(start, factor, border, r.1)
              && (r.0.OverflowError? <==>
                    Overflows(factor, r.1) || SleepOverflows(Delay(start, factor, border, r.1)))
              && (r.0.ValueError? ==> Delay(start, factor, border, r.1) < 0.0)
  {
    InnerFrom(outcomes, start, factor, border, 0)
  }

  /** `inner` as written: call until a call returns, counting failures in `n`
    * and pausing after each, unless computing the pause raises OverflowError
    * or sleeping it raises ValueError, which nothing catches. */
  method Retry<T>(outcomes: seq<Attempt<T>>, start: real, factor: real, border: real)
      returns (ending: RetryEnd<T>, n: nat, sleeps: seq<real>)
    requires |outcomes| > 0 && outcomes[|outcomes| - 1].Returned?
    ensures (ending, n) == Inner(outcomes, start, factor, border)
    ensures !ending.Succeeded? ==> n > 0 && sleeps == Schedule(start, factor, border, n - 1)
    ensures ending.Succeeded? ==> sleeps == Schedule(start, factor, border, n)
  {
    n := 0;
    sleeps := [];
    while true
      invariant n < |outcomes|
      invariant forall j :: 0 <= j < n ==> outcomes[j].Raised?
      invariant PausesFit(start, factor, border, n)
      invariant InnerFrom(outcomes, start, factor, border, n) == Inner(outcomes, start, factor, border)
      invariant sleeps == Schedule(start, factor, border, n)
      decreases |outcomes| - n
    {
      match outcomes[n]
      case Returned(v) =>
        assert InnerFrom(outcomes, start, factor, border, n) == (Succeeded(v), n);
        ending := Succeeded(v);
        return;
      case Raised =>
        n := n + 1;
        if Overflows(factor, n) {
          assert InnerFrom(outcomes, start, factor, border, n - 1) == (OverflowError, n);
          ending := OverflowError;
          return;
        }
        var t := Pause(start, factor, border, n);
        if SleepOverflows(t) {
          assert InnerFrom(outcomes, start, factor, border, n - 1) == (OverflowError, n);
          ending := OverflowError;
          return;
        }
        if t < 0.0 {
          assert InnerFrom(outcomes, start, factor, border, n - 1) == (ValueError, n);
          ending := ValueError;
          return;
        }
        assert InnerFrom(outcomes, start, factor, border, n - 1) == InnerFrom(outcomes, start, factor, border, n);
        assert Schedule(start, factor, border, n) == Schedule(start, factor, border, n - 1) + [t];
        sleeps := sleeps + [t];
    }
  }

  /** `inner` as its cap intends, and as it behaves with an int start and an
    * int factor, whose exact int pauses never overflow: call until a call
    * returns, with no attempt limit. */
  method RetryForever<T>(outcomes: seq<Attempt<T>>, start: real, factor: real, border: real)
      returns (result: T, n: nat, sleeps: seq<real>)
    requires |outcomes| > 0 && outcomes[|outcomes| - 1].Returned?
    ensures n == FirstSuccess(outcomes)
    ensures result == outcomes[n].value
    ensures sleeps == Schedule(start, factor, border, n)
  {
    n := 0;
    sleeps := [];
    while true
      invariant n < |outcomes|
      invariant forall j :: 0 <= j < n ==> outcomes[j].Raised?
      invariant sleeps == Schedule(start, factor, border, n)
      decreases |outcomes| - n
    {
      match outcomes[n]
      case Returned(v) =>
        result := v;
        return;
      case Raised =>
        n := n + 1;
        var t := Pause(start, factor, border, n);
        assert Schedule(start, factor, border, n) == Schedule(start, factor, border, n - 1) + [t];
        sleeps := sleeps + [t];
    }
  }

  /** `k` failures followed by one success: that success's value comes back
    * after exactly `k` pauses, whatever `k` is. */
  lemma {:induction false} FailuresThenSuccess<T>(k: nat, v: T)
    ensures FirstSuccess(seq(k, _ => Raised) + [Returned(v)]) == k
  {
    var outcomes := seq(k, _ => Raised) + [Returned(v)];
    if k > 0 {
      assert outcomes[1..] == seq(k - 1, _ => Raised) + [Returned(v)];
      FailuresThenSuccess(k - 1, v);
    }
  }

  /** A first-attempt success returns at once, with no pause. */
  lemma FirstAttemptSuccess<T>(outcomes: seq<Attempt<T>>, start: real, factor: real, border: real)
    requires |outcomes| > 0 && outcomes[0].Returned? && outcomes[|outcomes| - 1].Returned?
    ensures FirstSuccess(outcomes) == 0
    ensures Schedule(start, factor, border, FirstSuccess(outcomes)) == []
  {
  }

  lemma {:induction false} PowAtLeastOne(factor: real, n: nat)
    requires factor >= 1.0
    ensures Pow(factor, n) >= 1.0
  {
    if n > 0 {
      PowAtLeastOne(factor, n - 1);
    }
  }

  /** With `factor >= 1`, `factor ** n` grows with `n`. */
  lemma {:induction false} PowMonotone(factor: real, n: nat, m: nat)
    requires factor >= 1.0 && n <= m
    ensures Pow(factor, n) <= Pow(factor, m)
    decreases m - n
  {
    if n < m {
      PowMonotone(factor, n, m - 1);
      PowAtLeastOne(factor, m - 1);
      var p := Pow(factor, m - 1);
      assert Pow(factor, m) == factor * p;
      assert factor * p - p == (factor - 1.0) * p;
    }
  }

  /** With `start >= 0` and `factor >= 1`, pauses never shrink from one failure to the next. */
  lemma DelayMonotone(start: real, factor: real, border: real, n: nat, m: nat)
    requires start >= 0.0 && factor >= 1.0 && n <= m
    ensures Delay(start, factor, border, n) <= Delay(start, factor, border, m)
  {
    PowMonotone(factor, n, m);
    ScaleMonotone(start, Pow(factor, n), Pow(factor, m));
    assert start * Pow(factor, n) <= start * Pow(factor, m);
  }

  lemma ScaleMonotone(a: real, x: real, y: real)
    requires a >= 0.0 && x <= y
    ensures a * x <= a * y
  {
    assert a * y - a * x == a * (y - x);
  }

  /** Once a pause is capped at `border`, every later pause is `border` too. */
  lemma DelayStaysCapped(start: real, factor: real, border: real, n: nat, m: nat)
    requires start >= 0.0 && factor >= 1.0 && n <= m
    requires Delay(start, factor, border, n) == border
    ensures Delay(start, factor, border, m) == border
  {
    DelayMonotone(start, factor, border, n, m);
  }

  /** The whole pause schedule is non-decreasing and bounded by `border`. */
  lemma ScheduleOrdered(start: real, factor: real, border: real, k: nat, i: nat, j: nat)
    requires start >= 0.0 && factor >= 1.0 && i <= j < k
    ensures Schedule(start, factor, border, k)[i] <= Schedule(start, factor, border, k)[j] <= border
  {
    DelayMonotone(start, factor, border, i + 1, j + 1);
  }

  /** With the defaults, the first pause is 0.2 s, the sixth is 6.4 s, and from
    * the seventh failure on (0.1 * 2 ** 7 = 12.8) every pause is 10 s. */
  lemma DefaultSchedule(n: nat)
    ensures Delay(DefaultStart, DefaultFactor, DefaultBorder, 1) == 0.2
    ensures Delay(DefaultStart, DefaultFactor, DefaultBorder, 6) == 6.4
    ensures n >= 7 ==> Delay(DefaultStart, DefaultFactor, DefaultBorder, n) == DefaultBorder
  {
    assert Pow(2.0, 6) == 64.0;
    assert Pow(2.0, 7) == 128.0;
    if n >= 7 {
      DelayStaysCapped(DefaultStart, DefaultFactor, DefaultBorder, 7, n);
    }
  }

  /** With `factor > 1`, `factor ** n` grows strictly with `n`. */
  lemma {:induction false} PowGrows(factor: real, n: nat, m: nat)
    requires factor > 1.0 && n < m
    ensures Pow(factor, n) < Pow(factor, m)
    decreases m - n
  {
    PowMonotone(factor, n, m - 1);
    PowAtLeastOne(factor, m - 1);
    var p := Pow(factor, m - 1);
    assert Pow(factor, m) == factor * p;
    assert factor * p - p == (factor - 1.0) * p;
  }

  /** With the defaults, 1023 failures and then a success return that success,
    * but 1024 failures raise OverflowError computing the 1024th pause, although
    * a success would follow: `0.1 * 2 ** 1024` needs `2 ** 1024` as a float. */
  lemma DefaultsOverflowOnFailure1024<T>(v: T)
    ensures Inner(seq(1023, _ => Raised) + [Returned(v)], DefaultStart, DefaultFactor, DefaultBorder)
         == (Succeeded(v), 1023)
    ensures Inner(seq(1024, _ => Raised) + [Returned(v)], DefaultStart, DefaultFactor, DefaultBorder)
         == (OverflowError, 1024)
  {
    forall j: nat | j < 1024
      ensures PauseOk(DefaultStart, DefaultFactor, DefaultBorder, j)
    {
      PowAtLeastOne(2.0, j);
      PowGrows(2.0, j, 1024);
    }
    PowAtLeastOne(2.0, 1024);
    assert !PauseOk(DefaultStart, DefaultFactor, DefaultBorder, 1024);
    FailuresThenSuccess(1023, v);
    FailuresThenSuccess(1024, v);
    var r := Inner(seq(1024, _ => Raised) + [Returned(v)], DefaultStart, DefaultFactor, DefaultBorder);
    assert !PausesFit(DefaultStart, DefaultFactor, DefaultBorder, 1024);
    assert r.1 == 1024;
  }

  /** With `factor >= 0`, `factor ** n` is not negative. */
  lemma {:induction false} PowNonNegative(factor: real, n: nat)
    requires factor >= 0.0
    ensures Pow(factor, n) >= 0.0
  {
    if n > 0 {
      PowNonNegative(factor, n - 1);
      ScaleMonotone(factor, 0.0, Pow(factor, n - 1));
    }
  }

  /** With parameters that are not negative, no pause is negative, so `inner`
    * never ends in ValueError. */
  lemma NonNegativeNeverValueError<T>(outcomes: seq<Attempt<T>>, start: real, factor: real, border: real)
    requires |outcomes| > 0 && outcomes[|outcomes| - 1].Returned?
    requires start >= 0.0 && factor >= 0.0 && border >= 0.0
    ensures !Inner(outcomes, start, factor, border).0.ValueError?
  {
    var r := Inner(outcomes, start, factor, border);
    if r.0.ValueError? {
      PowNonNegative(factor, r.1);
      ScaleMonotone(start, 0.0, Pow(factor, r.1));
      assert false;
    }
  }

  /** A negative start makes the first pause negative: with start -0.1, one
    * failure and then a success, `time.sleep(-0.2)` raises ValueError before
    * the second call. */
  lemma NegativeStartValueError()
    ensures Delay(-0.1, DefaultFactor, DefaultBorder, 1) == -0.2
    ensures Inner([Raised, Returned(5)], -0.1, DefaultFactor, DefaultBorder) == (ValueError, 1)
  {
    assert Delay(-0.1, DefaultFactor, DefaultBorder, 1) == -0.2;
    PowGrows(2.0, 1, 1024);
    assert !Overflows(DefaultFactor, 1);
    assert InnerFrom([Raised, Returned(5)], -0.1, DefaultFactor, DefaultBorder, 0) == (ValueError, 1);
  }

  /** A pause below a large border can still be too long to sleep: with start
    * 1e10 s and border 1e11 s, the first pause is 2e10 s, beyond 2 ** 63 ns,
    * and `time.sleep` raises OverflowError before the second call. */
  lemma HugePauseOverflowError()
    ensures Delay(10000000000.0, DefaultFactor, 100000000000.0, 1) == 20000000000.0
    ensures Inner([Raised, Returned(5)], 10000000000.0, DefaultFactor, 100000000000.0) == (OverflowError, 1)
  {
    assert Delay(10000000000.0, DefaultFactor, 100000000000.0, 1) == 20000000000.0;
    PowGrows(2.0, 1, 1024);
    assert !Overflows(DefaultFactor, 1);
    assert InnerFrom([Raised, Returned(5)], 10000000000.0, DefaultFactor, 100000000000.0, 0) == (OverflowError, 1);
  }

  /** With parameters that are not negative and a border below 2 ** 63 ns,
    * every pause can be slept: `inner` can only fail computing a pause. */
  lemma SleepableBorderOnlyPowerOverflows<T>(outcomes: seq<Attempt<T>>, start: real, factor: real, border: real)
    requires |outcomes| > 0 && outcomes[|outcomes| - 1].Returned?
    requires start >= 0.0 && factor >= 0.0 && 0.0 <= border < SleepCeiling
    ensures var r := Inner(outcomes, start, factor, border);
            !r.0.Succeeded? ==> r.0.OverflowError? && Overflows(factor, r.1)
  {
    var r := Inner(outcomes, start, factor, border);
    if !r.0.Succeeded? {
      PowNonNegative(factor, r.1);
      ScaleMonotone(start, 0.0, Pow(factor, r.1));
      assert !SleepOverflows(Delay(start, factor, border, r.1));
    }
  }
}
