/**
 * The incrementing-speed schedule of `SlideshowSettings`
 * (`poseviewer/slideshowsettings.py`). Every call of `increment_speed` moves
 * to the next image: within a phase of `increment_interval` images the
 * counter advances, and when it reaches the end of the phase the slide
 * duration doubles and the next phase is one image shorter. After the phase
 * of length 1 the interval is 0 and further calls signal completion.
 *
 * The two spinner values are fixed for a run: `baseSpeed` is
 * `speed_spinner.value()` and `steps` is `increment_interval_spinner.value()`;
 * both spinners have minimum 1.
 */
module Slideshow {

  /** The two spinner values the schedule reads. */
  datatype Config = Config(baseSpeed: nat, steps: nat)

  predicate ValidConfig(c: Config) {
    c.baseSpeed >= 1 && c.steps >= 1
  }

  /** `(_speed, slideshow_counter, increment_interval)`. */
  datatype Schedule = Schedule(speed: int, counter: int, interval: int)

  /** The signals `increment_speed` emits (queued through `QTimer.singleShot`). */
  datatype Signal = SlideshowComplete | IncrementIntervalChanged

  function Pow2(k: nat): (r: nat)
    ensures r >= 1
  {
    if k == 0 then 1 else 2 * Pow2(k - 1)
  }

  /** The triangular number `0 + 1 + ... + n`. */
  function Tri(n: nat): (r: nat)
    ensures 2 * r == n * (n + 1)
  {
    if n == 0 then 0 else n + Tri(n - 1)
  }

  /**
   * The invariant of the schedule: the interval lies in `0..steps`, the
   * counter lies in `1..interval` (and is 1 once the interval is 0), and the
   * slide duration is `baseSpeed * 2^(steps - interval)`.
   */
  ghost predicate Inv(c: Config, s: Schedule) {
    && ValidConfig(c)
    && 0 <= s.interval <= c.steps
    && 1 <= s.counter
    && (s.interval == 0 ==> s.counter == 1)
    && (s.interval > 0 ==> s.counter <= s.interval)
    && s.speed == c.baseSpeed * Pow2(c.steps - s.interval)
  }

  /** `reset_settings` (and the end of `__init__`). */
  function Reset(c: Config): (r: Schedule)
    requires ValidConfig(c)
    ensures Inv(c, r)
    ensures r.speed == c.baseSpeed && r.interval == c.steps
  {
    Schedule(c.baseSpeed, 1, c.steps)
  }

  /** Doubling the exponent's argument by one doubles the duration. */
  lemma DoubleSpeed(c: Config, m: nat)
    requires 1 <= m <= c.steps
    ensures c.baseSpeed * Pow2(c.steps - m + 1) == 2 * (c.baseSpeed * Pow2(c.steps - m))
  {
    assert Pow2(c.steps - m + 1) == 2 * Pow2(c.steps - m);
  }

  /**
   * The new state after `increment_speed`. Its three cases, stated on the
   * reachable states: completion leaves the state alone, the last image of a
   * phase doubles the duration and starts the next, shorter phase, and any
   * other image only advances the counter.
   */
  function Advance(c: Config, s: Schedule): (r: Schedule)
    requires ValidConfig(c) && s.counter <= c.steps + 1
    ensures Inv(c, s) ==> Inv(c, r)
    ensures Inv(c, s) && s.interval == 0 ==> r == s
    ensures Inv(c, s) && s.interval > 0 && s.counter == s.interval ==> r == Schedule(2 * s.speed, 1, s.interval - 1)
    ensures Inv(c, s) && s.interval > 0 && s.counter < s.interval ==> r == Schedule(s.speed, s.counter + 1, s.interval)
  {
    if s.interval == 0 then
      s
    else if s.counter >= s.interval && s.interval != 0 then
      var r := Schedule(c.baseSpeed * Pow2(c.steps - s.counter + 1), 1, s.interval - 1);
      if 1 <= s.interval <= c.steps then
        DoubleSpeed(c, s.interval);
        r
      else
        r
    else
      Schedule(s.speed, s.counter + 1, s.interval)
  }

  /** The signal the call emits, if any. */
  function SignalOf(s: Schedule): seq<Signal> {
    if s.interval == 0 then [SlideshowComplete]
    else if s.counter >= s.interval then [IncrementIntervalChanged]
    else []
  }

  /** `k` consecutive calls of `increment_speed`. */
  function Run(c: Config, s: Schedule, k: nat): (r: Schedule)
    requires Inv(c, s)
    ensures Inv(c, r)
    decreases k
  {
    if k == 0 then s else Run(c, Advance(c, s), k - 1)
  }

  /** The signals `k` consecutive calls of `increment_speed` emit, in order. */
  function Signals(c: Config, s: Schedule, k: nat): seq<Signal>
    requires Inv(c, s)
    decreases k
  {
    if k == 0 then [] else SignalOf(s) + Signals(c, Advance(c, s), k - 1)
  }

  /** The number of calls still needed before the interval reaches 0. */
  function Remaining(c: Config, s: Schedule): (r: nat)
    requires Inv(c, s)
    ensures r == 0 <==> s.interval == 0
  {
    if s.interval == 0 then 0 else (s.interval - s.counter + 1) + Tri(s.interval - 1)
  }

  /** Every call before completion brings completion exactly one call closer. */
  lemma RemainingStep(c: Config, s: Schedule)
    requires Inv(c, s) && s.interval > 0
    ensures Remaining(c, Advance(c, s)) == Remaining(c, s) - 1
  {
  }

  /**
   * After `k` calls the interval is 0 exactly when `k` reaches
   * `Remaining(c, s)`: the schedule neither completes early nor runs past it.
   */
  lemma {:induction false} CompletesExactlyAfter(c: Config, s: Schedule, k: nat)
    requires Inv(c, s)
    ensures Run(c, s, k).interval == 0 <==> k >= Remaining(c, s)
    ensures k <= Remaining(c, s) ==> Remaining(c, Run(c, s, k)) == Remaining(c, s) - k
    decreases k
  {
    if k > 0 {
      if s.interval > 0 {
        RemainingStep(c, s);
      }
      CompletesExactlyAfter(c, Advance(c, s), k - 1);
    }
  }

  /** From a reset the run lasts `steps * (steps + 1) / 2` calls and ends at `baseSpeed * 2^steps`. */
  lemma ResetRunLength(c: Config, k: nat)
    requires ValidConfig(c)
    ensures Remaining(c, Reset(c)) == Tri(c.steps)
    ensures Run(c, Reset(c), k).interval == 0 <==> k >= Tri(c.steps)
    ensures k >= Tri(c.steps) ==> Run(c, Reset(c), k).speed == c.baseSpeed * Pow2(c.steps)
  {
    CompletesExactlyAfter(c, Reset(c), k);
  }

  /**
   * Up to completion, every phase still open announces its end once with
   * `incrementIntervalChanged`, and `slideshowComplete` is not emitted.
   */
  lemma {:induction false} RunSignals(c: Config, s: Schedule)
    requires Inv(c, s)
    ensures var sig := Signals(c, s, Remaining(c, s));
            multiset(sig)[IncrementIntervalChanged] == s.interval && SlideshowComplete !in sig
    decreases Remaining(c, s)
  {
    if s.interval > 0 {
      var next := Advance(c, s);
      RemainingStep(c, s);
      RunSignals(c, next);
      assert Signals(c, s, Remaining(c, s)) == SignalOf(s) + Signals(c, next, Remaining(c, next));
      assert s.interval == next.interval + |SignalOf(s)|;
    }
  }

  /**
   * From a reset, the `steps * (steps + 1) / 2` calls of a run emit
   * `incrementIntervalChanged` once per phase and never `slideshowComplete`;
   * the call after them emits `slideshowComplete`.
   */
  lemma ResetSignals(c: Config)
    requires ValidConfig(c)
    ensures var sig := Signals(c, Reset(c), Tri(c.steps));
            multiset(sig)[IncrementIntervalChanged] == c.steps && SlideshowComplete !in sig
    ensures SignalOf(Run(c, Reset(c), Tri(c.steps))) == [SlideshowComplete]
  {
    RunSignals(c, Reset(c));
    ResetRunLength(c, Tri(c.steps));
  }

  /** The list `[i if i > 0 else 1 for i in range(k)]`, summed. */
  function ImagesListSum(k: nat): (r: nat)
    ensures k >= 1 ==> r == 1 + Tri(k - 1)
  {
    if k == 0 then 0 else ImagesListSum(k - 1) + (if k - 1 > 0 then k - 1 else 1)
  }

  /** `calculate_total_images`. */
  function TotalImages(c: Config): (r: nat)
    ensures 2 * (r - 1) == c.steps * (c.steps + 1)
  {
    ImagesListSum(c.steps + 1)
  }

  /**
   * `calculate_total_images` counts the image shown at the start plus one
   * image per `increment_speed` call that a run from a reset needs to reach
   * interval 0.
   */
  lemma TotalImagesIsRunLength(c: Config, k: nat)
    requires ValidConfig(c)
    ensures TotalImages(c) == 1 + Remaining(c, Reset(c))
    ensures Run(c, Reset(c), k).interval == 0 <==> k >= TotalImages(c) - 1
  {
    ResetRunLength(c, k);
  }

  // ---------------------------------------------------------------------
  // calculate_slideshow_time_left

  /** The branch-chosen starting value of `total`. */
  function TimeLeftStart(c: Config, interval: int): nat
    requires ValidConfig(c)
  {
    if interval > 1 then 0
    else if interval == 0 then c.baseSpeed * Pow2(c.steps)
    else if interval == 1 && c.steps > 1 then c.baseSpeed * Pow2(c.steps - 1)
    else c.baseSpeed
  }

  /** `sum(i * base * 2 ** ((steps - i) + 1) for i in range(1, m + 1))`. */
  function PhaseSum(c: Config, m: nat): (r: nat)
    requires m <= c.steps + 1
    ensures m > 0 && c.baseSpeed > 0 ==> r > 0
  {
    if m == 0 then 0 else PhaseSum(c, m - 1) + m * (c.baseSpeed * Pow2(c.steps - m + 1))
  }

  /** What `calculate_slideshow_time_left` returns for a given interval. */
  function TimeLeft(c: Config, interval: int): (r: nat)
    requires ValidConfig(c) && interval <= c.steps + 1
  {
    TimeLeftStart(c, interval) + (if interval > 0 then PhaseSum(c, interval) else 0)
  }

  /**
   * The slide durations still to come, the current image's included: the
   * current duration, then the duration every further call returns until the
   * interval reaches 0.
   */
  function ScheduleTime(c: Config, s: Schedule): (r: int)
    requires Inv(c, s)
    ensures r >= s.speed
    decreases Remaining(c, s)
  {
    if s.interval == 0 then
      s.speed
    else
      RemainingStep(c, s);
      s.speed + ScheduleTime(c, Advance(c, s))
  }

  /** `sum(i * base * 2 ** (steps - i) for i in range(1, m + 1))`: `i` images at phase length `i`. */
  function PhaseDurations(c: Config, m: nat): (r: nat)
    requires m <= c.steps
  {
    if m == 0 then 0 else PhaseDurations(c, m - 1) + m * (c.baseSpeed * Pow2(c.steps - m))
  }

  /**
   * The time left the schedule actually has, in closed form: the images left
   * in the current phase at the current duration, each later phase `i` at
   * `baseSpeed * 2^(steps - i)`, and the image shown on completion.
   */
  function CorrectedTimeLeft(c: Config, s: Schedule): (r: int)
    requires Inv(c, s)
  {
    (if s.interval == 0 then 0 else (s.interval - s.counter + 1) * s.speed)
    + (if s.interval == 0 then 0 else PhaseDurations(c, s.interval - 1))
    + c.baseSpeed * Pow2(c.steps)
  }

  lemma Twice(m: int, x: int)
    ensures m * (2 * x) == 2 * (m * x)
  {
  }

  lemma OneMore(a: int, x: int)
    ensures (a + 1) * x == a * x + x
  {
  }

  /** The as-written sum doubles every term of the actual durations. */
  lemma {:induction false} PhaseSumDoubles(c: Config, m: nat)
    requires m <= c.steps
    ensures PhaseSum(c, m) == 2 * PhaseDurations(c, m)
  {
    if m > 0 {
      PhaseSumDoubles(c, m - 1);
      var x := c.baseSpeed * Pow2(c.steps - m);
      DoubleSpeed(c, m);
      Twice(m, x);
    }
  }

  /** One call before completion takes the current duration off the closed form. */
  lemma CorrectedStep(c: Config, s: Schedule)
    requires Inv(c, s) && s.interval > 0
    ensures CorrectedTimeLeft(c, s) == s.speed + CorrectedTimeLeft(c, Advance(c, s))
  {
    if s.counter < s.interval {
      CorrectedStepWithinPhase(c, s);
    } else if s.interval > 1 {
      CorrectedStepAtPhaseEnd(c, s);
    }
  }

  /** Inside a phase one image of the current duration is shown. */
  lemma CorrectedStepWithinPhase(c: Config, s: Schedule)
    requires Inv(c, s) && 0 < s.counter < s.interval
    ensures CorrectedTimeLeft(c, s) == s.speed + CorrectedTimeLeft(c, Advance(c, s))
  {
    OneMore(s.interval - s.counter, s.speed);
  }

  /** At the end of a phase the next phase, one image shorter, runs at twice the duration. */
  lemma CorrectedStepAtPhaseEnd(c: Config, s: Schedule)
    requires Inv(c, s) && 1 < s.interval == s.counter
    ensures CorrectedTimeLeft(c, s) == s.speed + CorrectedTimeLeft(c, Advance(c, s))
  {
    var m, sp := s.interval, s.speed;
    var f := c.baseSpeed * Pow2(c.steps);
    DoubleSpeed(c, m);
    Twice(m - 1, sp);
    assert PhaseDurations(c, m - 1) == PhaseDurations(c, m - 2) + (m - 1) * (2 * sp);
    assert CorrectedTimeLeft(c, Advance(c, s)) == (m - 1) * (2 * sp) + PhaseDurations(c, m - 2) + f;
  }

  /** The closed form agrees with the durations the schedule produces, from every reachable state. */
  lemma {:induction false} CorrectedTimeLeftMatchesSchedule(c: Config, s: Schedule)
    requires Inv(c, s)
    ensures CorrectedTimeLeft(c, s) == ScheduleTime(c, s)
    decreases Remaining(c, s)
  {
    if s.interval > 0 {
      RemainingStep(c, s);
      CorrectedStep(c, s);
      CorrectedTimeLeftMatchesSchedule(c, Advance(c, s));
    }
  }

  /**
   * The as-written formula is exact at the start of the last two phases and
   * at completion...
   */
  lemma TimeLeftExactForShortPhases(c: Config, s: Schedule)
    requires Inv(c, s) && s.counter == 1 && s.interval <= 2
    ensures TimeLeft(c, s.interval) == ScheduleTime(c, s)
  {
    CorrectedTimeLeftMatchesSchedule(c, s);
    if s.interval == 2 {
      ExactAtTwoPhases(c, s);
    } else if s.interval == 1 {
      ExactAtLastPhase(c, s);
    }
  }

  /** At the start of the second-to-last phase, the as-written formula equals the corrected one. */
  lemma ExactAtTwoPhases(c: Config, s: Schedule)
    requires Inv(c, s) && s.counter == 1 && s.interval == 2
    ensures TimeLeft(c, 2) == CorrectedTimeLeft(c, s)
  {
    var h := c.baseSpeed * Pow2(c.steps - 1);
    PhaseSumDoubles(c, 2);
    DoubleSpeed(c, 1);
    DoubleSpeed(c, 2);
    assert PhaseDurations(c, 1) == h;
    assert PhaseDurations(c, 2) == h + 2 * s.speed;
  }

  /** At the start of the last phase, the as-written formula equals the corrected one. */
  lemma ExactAtLastPhase(c: Config, s: Schedule)
    requires Inv(c, s) && s.counter == 1 && s.interval == 1
    ensures TimeLeft(c, 1) == CorrectedTimeLeft(c, s)
  {
    assert PhaseSum(c, 1) == c.baseSpeed * Pow2(c.steps);
  }

  /**
   * ... but not over longer runs: with base 1 and 3 phases, at a reset the
   * loop adds 3*2 + 2*4 + 1*8 = 22, twice the 3*1 + 2*2 + 1*4 = 11 seconds
   * that the three phases' images are shown for, and the schedule's 19
   * (those 11 plus the image at 8 seconds shown on completion).
   */
  lemma TimeLeftCountsPhasesTwice()
    ensures var c := Config(1, 3);
            TimeLeft(c, 3) == PhaseSum(c, 3) == 22 && PhaseDurations(c, 3) == 11
            && ScheduleTime(c, Reset(c)) == 19
  {
    var c := Config(1, 3);
    CorrectedTimeLeftMatchesSchedule(c, Reset(c));
    assert PhaseDurations(c, 2) == 8;
    assert PhaseSum(c, 3) == 22;
  }

  /** The dialog's schedule state; the spinner values are the fixed `config`. */
  class SlideshowSettings {
    const config: Config
    /** `_speed`. */
    var speed: int
    /** `slideshow_counter`. */
    var slideshowCounter: int
    /** `increment_interval`. */
    var incrementInterval: int
    /** Signals emitted so far, in order. */
    var signals: seq<Signal>

    function Model(): Schedule
      reads this
    {
      Schedule(speed, slideshowCounter, incrementInterval)
    }

    ghost predicate Valid()
      reads this
    {
      Inv(config, Model())
    }

    /** `__init__`: the schedule starts reset. */
    constructor (c: Config)
      requires ValidConfig(c)
      ensures config == c && Model() == Reset(c) && signals == []
      ensures Valid()
    {
      config := c;
      speed, slideshowCounter, incrementInterval := c.baseSpeed, 1, c.steps;
      signals := [];
    }

    /** `increment_speed`: advances the schedule and returns the duration of the next image. */
    method IncrementSpeed() returns (r: int)
      requires Valid()
      modifies this`speed, this`slideshowCounter, this`incrementInterval, this`signals
      ensures Valid()
      ensures Model() == Advance(config, old(Model()))
      ensures signals == old(signals) + SignalOf(old(Model()))
      ensures r == speed
    {
      if incrementInterval == 0 {
        signals := signals + [SlideshowComplete];
      } else if slideshowCounter >= incrementInterval && incrementInterval != 0 {
        speed := config.baseSpeed * Pow2(config.steps - slideshowCounter + 1);
        slideshowCounter := 1;
        incrementInterval := incrementInterval - 1;
        signals := signals + [IncrementIntervalChanged];
      } else {
        slideshowCounter := slideshowCounter + 1;
      }
      r := speed;
    }

    /** `reset_settings`. */
    method ResetSettings()
      requires ValidConfig(config)
      modifies this`speed, this`slideshowCounter, this`incrementInterval
      ensures Valid()
      ensures Model() == Reset(config)
    {
      speed := config.baseSpeed;
      slideshowCounter := 1;
      incrementInterval := config.steps;
    }

    /** `calculate_slideshow_time_left`: the starting value, then the loop over the remaining phases. */
    method CalculateSlideshowTimeLeft() returns (total: int)
      requires Valid()
      ensures total == TimeLeft(config, incrementInterval)
      ensures total >= 0
      ensures incrementInterval == 0 ==> total == config.baseSpeed * Pow2(config.steps)
    {
      var base, n := config.baseSpeed, config.steps;
      total := 0;
      if incrementInterval > 1 {
        total := 0;
      } else if incrementInterval == 0 {
        total := base * Pow2(n);
      } else if incrementInterval == 1 && n > 1 {
        total := base * Pow2(n - 1);
      } else {
        total := base;
      }
      var i := 1;
      while i < incrementInterval + 1
        invariant 1 <= i <= incrementInterval + 1
        invariant total == TimeLeftStart(config, incrementInterval) + PhaseSum(config, i - 1)
      {
        total := total + i * (base * Pow2(n - i + 1));
        i := i + 1;
      }
    }
  }

  /** A run from a reset: `k` calls of `increment_speed` reach the `k`-th state of the schedule. */
  method RunFromReset(settings: SlideshowSettings, k: nat)
    requires ValidConfig(settings.config)
    modifies settings
    ensures settings.Valid()
    ensures settings.Model() == Run(settings.config, Reset(settings.config), k)
    ensures settings.signals == old(settings.signals) + Signals(settings.config, Reset(settings.config), k)
  {
    settings.ResetSettings();
    var i := 0;
    while i < k
      invariant 0 <= i <= k
      invariant settings.Valid()
      invariant Run(settings.config, settings.Model(), k - i) == Run(settings.config, Reset(settings.config), k)
      invariant settings.signals + Signals(settings.config, settings.Model(), k - i)
                == old(settings.signals) + Signals(settings.config, Reset(settings.config), k)
    {
      var _ := settings.IncrementSpeed();
      i := i + 1;
    }
  }
}
