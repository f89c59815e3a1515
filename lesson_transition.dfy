/** The between-lessons overlay: a countdown of whole seconds that continues to the
    next lesson when it reaches zero, unless the user paused it. The interval timer is
    the `Tick` method, called once a second while the interval is armed; the delay is a
    real number, as the prop is any number. */
module LessonTransition {
  import opened Wrappers

  /** A call into the parent. */
  datatype Effect = Continue | Cancel

  const DefaultDelay: real := 5.0

  predicate IsWhole(x: real) {
    x.Floor as real == x
  }

  class LessonTransitionState {
    const autoPlayDelay: real
    var countdown: real
    var isPaused: bool
    /** How many times the interval has fired. */
    ghost var ticks: nat

    /** The countdown has dropped by one per tick from the delay, and every tick
        started from a positive count. */
    ghost predicate Valid()
      reads this
    {
      countdown == autoPlayDelay - ticks as real &&
      (ticks > 0 ==> countdown > -1.0)
    }

    /** The overlay as it appears: counting down from the delay (5 when none is
        given), not paused. */
    constructor (delay: Option<real>)
      ensures autoPlayDelay == delay.GetOr(DefaultDelay)
      ensures countdown == autoPlayDelay && !isPaused
      ensures Valid() && ticks == 0
    {
      autoPlayDelay := delay.GetOr(DefaultDelay);
      countdown := delay.GetOr(DefaultDelay);
      isPaused := false;
      ticks := 0;
    }

    /** The interval is armed only while not paused and above zero. */
    predicate TimerArmed()
      reads this
      ensures TimerArmed() ==> !AutoContinueFires()
      ensures !isPaused && countdown >= 0.0 ==> TimerArmed() != AutoContinueFires()
    {
      !isPaused && countdown > 0.0
    }

    /** The auto-continue effect's condition. */
    predicate AutoContinueFires()
      reads this
      ensures AutoContinueFires() ==> !isPaused && countdown == 0.0
    {
      countdown == 0.0 && !isPaused
    }

    /** One firing of the interval: down by exactly one second while armed, no change
        otherwise. */
    method Tick()
      requires Valid()
      modifies this
      ensures Valid()
      ensures old(TimerArmed()) ==> countdown == old(countdown) - 1.0 && ticks == old(ticks) + 1
      ensures !old(TimerArmed()) ==> countdown == old(countdown) && ticks == old(ticks)
      ensures isPaused == old(isPaused)
      ensures countdown <= old(countdown)
    {
      if !isPaused && countdown > 0.0 {
        countdown := countdown - 1.0;
        ticks := ticks + 1;
      }
    }

    /** "Cancelar" while counting: pauses; nothing ever resumes. */
    method HandlePause()
      requires Valid()
      modifies this
      ensures Valid() && isPaused
      ensures countdown == old(countdown) && ticks == old(ticks)
    {
      isPaused := true;
    }

    /** The left button: pauses while counting, and only once paused does it cancel
        ("Quedarse aquí"). */
    method PressLeftButton() returns (effects: seq<Effect>)
      requires Valid()
      modifies this
      ensures Valid() && isPaused
      ensures countdown == old(countdown) && ticks == old(ticks)
      ensures effects == if old(isPaused) then [Cancel] else []
    {
      if !isPaused {
        HandlePause();
        effects := [];
      } else {
        effects := [Cancel];
      }
    }

    /** The right button ("Continuar ahora" / "Ir a siguiente"): continues at once,
        whatever the countdown and the pause. */
    method PressRightButton() returns (effects: seq<Effect>)
      ensures effects == [Continue]
    {
      effects := [Continue];
    }

    /** The progress bar's width in percent: absent while paused, and undefined for a
        zero delay. */
    function BarWidth(): (w: Option<real>)
      reads this
      ensures w.Some? <==> !isPaused && autoPlayDelay != 0.0
    {
      if isPaused || autoPlayDelay == 0.0 then None else Some(countdown / autoPlayDelay * 100.0)
    }

    /** Ticks until the countdown stops, with the overlay left alone: for a whole,
        non-negative delay this ends exactly at zero, where auto-continue fires. */
    method RunDown()
      requires Valid() && !isPaused && IsWhole(autoPlayDelay) && autoPlayDelay >= 0.0
      modifies this
      ensures Valid() && AutoContinueFires()
      ensures ticks == old(ticks) + old(countdown).Floor
    {
      WholeCountdown(this);
      while countdown > 0.0
        invariant Valid() && !isPaused && IsWhole(countdown) && countdown >= 0.0
        invariant ticks + countdown.Floor == old(ticks) + old(countdown).Floor
        decreases countdown.Floor
      {
        Tick();
      }
    }
  }

  /** With a whole delay the countdown stays whole. */
  lemma WholeCountdown(t: LessonTransitionState)
    requires t.Valid() && IsWhole(t.autoPlayDelay)
    ensures IsWhole(t.countdown)
  {
    var n := t.autoPlayDelay.Floor - t.ticks;
    assert t.countdown == n as real;
  }

  /** With a whole, non-negative delay the countdown never goes below zero. */
  lemma CountdownNeverNegative(t: LessonTransitionState)
    requires t.Valid() && IsWhole(t.autoPlayDelay) && t.autoPlayDelay >= 0.0
    ensures 0.0 <= t.countdown <= t.autoPlayDelay
  {
    WholeCountdown(t);
  }

  /** With a fractional delay the countdown steps over zero, so auto-continue never
      fires. */
  lemma FractionalDelayNeverContinues(t: LessonTransitionState)
    requires t.Valid() && !IsWhole(t.autoPlayDelay)
    ensures !t.AutoContinueFires()
  {
    assert t.countdown + t.ticks as real == t.autoPlayDelay;
    assert (t.ticks as real).Floor == t.ticks;
  }

  /** While counting, the bar's width is a percentage. */
  lemma BarWidthBounds(t: LessonTransitionState)
    requires t.Valid() && IsWhole(t.autoPlayDelay) && t.autoPlayDelay > 0.0 && !t.isPaused
    ensures t.BarWidth().Some? && 0.0 <= t.BarWidth().value <= 100.0
  {
    CountdownNeverNegative(t);
    var q := t.countdown / t.autoPlayDelay;
    assert q * t.autoPlayDelay == t.countdown;
  }
}
