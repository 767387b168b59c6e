/**
  The timer-driven LED controller: buttons change the flash period, each timer tick flips
  the LED and arms the timer for the next phase. A button handler is taken as atomic.
 */
module LedTimer {
  import opened CInt

  const DEFAULT_TIME_MS := 1000
  const DUTY_CYCLE_PERCENT := 2
  const STEP_MS := 200

  /** it_value of an itimerspec; it_interval is always 0. */
  datatype Timespec = Timespec(sec: int, nsec: int) {
    function Nanos(): int { sec * 1_000_000_000 + nsec }

    predicate Normalised() { 0 <= sec && 0 <= nsec < 1_000_000_000 }

    /** timerfd_settime with a zero value disarms the timer. */
    predicate Disarms() { sec == 0 && nsec == 0 }
  }

  function TimerSpec(ms: int): Timespec {
    Timespec(TruncDiv(ms, 1000), TruncMod(ms, 1000) * 1_000_000)
  }

  /** The split is exact; it is a normalised value exactly for ms >= 0 and arms the timer
      exactly for ms != 0. */
  lemma TimerSpecExactness(ms: int)
    ensures TimerSpec(ms).Nanos() == ms * 1_000_000
    ensures TimerSpec(ms).Normalised() <==> ms >= 0
    ensures TimerSpec(ms).Disarms() <==> ms == 0
  {}

  function OnTime(period: int): int { TruncDiv(period, 100) * DUTY_CYCLE_PERCENT }

  function OffTime(period: int): int { period - OnTime(period) }

  /** The duty cycle is exactly 2 percent for multiples of 100 ms and for no other period. */
  lemma DutyExactness(period: int)
    requires period > 0
    ensures 100 * OnTime(period) == 2 * period <==> period % 100 == 0
    ensures 100 * OnTime(period) <= 2 * period < 100 * OnTime(period) + 200
    ensures OnTime(period) + OffTime(period) == period
    ensures 0 <= OnTime(period) < OffTime(period)
    ensures OnTime(period) == 0 <==> period < 100
  {}

  // ---- The controller ----

  datatype Led = Led(period: int, isOn: bool, armed: Timespec)

  const INITIAL := Led(DEFAULT_TIME_MS, false, TimerSpec(DEFAULT_TIME_MS))

  datatype Button = Increase | Reset | Decrease

  /** An edge on a button's file, with the character read from it, or the timer's expiry. */
  datatype Event = Edge(button: Button, value: char) | Tick

  function Pressed(period: int, b: Button): int {
    match b
    case Increase => period + STEP_MS
    case Reset => DEFAULT_TIME_MS
    case Decrease => if period - STEP_MS <= 0 then STEP_MS else period - STEP_MS
  }

  function React(l: Led, e: Event): Led {
    match e
    case Edge(b, v) => if v == '1' then l.(period := Pressed(l.period, b)) else l
    case Tick =>
      // delay is an int
      l.(isOn := !l.isOn, armed := TimerSpec(ToInt32(Requested(l))))
  }

  /** The length in ms of the phase that starts with the next tick. */
  function Requested(l: Led): int { if l.isOn then OffTime(l.period) else OnTime(l.period) }

  function After(l: Led, es: seq<Event>): Led
    decreases es
  {
    if es == [] then l else After(React(l, es[0]), es[1..])
  }

  class Controller {
    var flashPeriod: int
    var isLedOn: bool
    var timer: Timespec

    function State(): Led
      reads this
    {
      Led(flashPeriod, isLedOn, timer)
    }

    constructor ()
      ensures State() == INITIAL
      ensures flashPeriod == 1000 && !isLedOn && timer.sec == 1 && timer.nsec == 0
    {
      flashPeriod, isLedOn := DEFAULT_TIME_MS, false;
      timer := TimerSpec(DEFAULT_TIME_MS);
    }

    method TimerSetTime(ms: int)
      modifies this`timer
      ensures timer == TimerSpec(ms)
    {
      timer := Timespec(TruncDiv(ms, 1000), TruncMod(ms, 1000) * 1_000_000);
    }

    method OnEdge(button: Button, value: char)
      modifies this`flashPeriod
      ensures State() == React(old(State()), Edge(button, value))
      ensures value != '1' ==> flashPeriod == old(flashPeriod)
      ensures value == '1' && button == Increase ==> flashPeriod == old(flashPeriod) + 200
      ensures value == '1' && button == Reset ==> flashPeriod == 1000
      ensures value == '1' && button == Decrease ==>
                flashPeriod == (if old(flashPeriod) > 200 then old(flashPeriod) - 200 else 200)
      ensures isLedOn == old(isLedOn) && timer == old(timer)
      ensures PeriodInSteps(old(flashPeriod)) ==> PeriodInSteps(flashPeriod)
    {
      if value == '1' {
        match button {
          case Increase => flashPeriod := flashPeriod + 200;
          case Reset => flashPeriod := DEFAULT_TIME_MS;
          case Decrease =>
            flashPeriod := flashPeriod - 200;
            if flashPeriod <= 0 {
              flashPeriod := 200;
            }
        }
      }
    }

    method OnTick()
      modifies this
      ensures State() == React(old(State()), Tick)
      ensures isLedOn == !old(isLedOn) && flashPeriod == old(flashPeriod)
      ensures old(PeriodInSteps(flashPeriod) && flashPeriod <= INT_MAX)
              ==> timer.Nanos() == (if old(isLedOn) then 980_000 else 20_000) * flashPeriod > 0
    {
      var timeOn := TruncDiv(flashPeriod, 100) * DUTY_CYCLE_PERCENT;
      var timeOff := flashPeriod - timeOn;
      var delay := 0;
      if !isLedOn {
        delay := ToInt32(timeOn);
        isLedOn := true;
      } else {
        delay := ToInt32(timeOff);
        isLedOn := false;
      }
      TimerSetTime(delay);
      if old(PeriodInSteps(flashPeriod) && flashPeriod <= INT_MAX) {
        TickArmsPeriod(old(State()));
        WholeDuty(flashPeriod);
      }
    }
  }

  // ---- Whole runs ----

  function Increases(es: seq<Event>): nat {
    if es == [] then 0
    else (if es[0] == Edge(Increase, '1') then 1 else 0) + Increases(es[1..])
  }

  predicate PeriodInSteps(period: int) { period > 0 && period % STEP_MS == 0 }

  /** The timer is armed, with the ms last requested. */
  predicate Inv(l: Led, ms: int) {
    PeriodInSteps(l.period) && ms > 0 && l.armed.Nanos() == ms * 1_000_000 && l.armed.Normalised()
  }

  lemma ArmsAsRequested(ms: int)
    requires ms >= 0
    ensures TimerSpec(ToInt32(ms)).Nanos() == ms * 1_000_000 <==> ms <= INT_MAX
    ensures ms <= INT_MAX ==> TimerSpec(ToInt32(ms)).Normalised() && (TimerSpec(ToInt32(ms)).Disarms() <==> ms == 0)
  {
    ToInt32Exactness(ms);
    if ms <= INT_MAX {
      TimerSpecExactness(ms);
    } else {
      TimerSpecExactness(ToInt32(ms));
    }
  }

  /** A tick arms exactly the requested delay when, and only when, that delay fits the int
      it is kept in; it stops the timer only when a period below 100 ms switches on. */
  lemma TickArms(l: Led)
    requires l.period > 0
    ensures var ms, armed := Requested(l), React(l, Tick).armed;
            && (armed.Nanos() == ms * 1_000_000 <==> ms <= INT_MAX)
            && (ms <= INT_MAX ==> armed.Normalised() && (armed.Disarms() <==> !l.isOn && l.period < 100))
  {
    DutyExactness(l.period);
    ArmsAsRequested(Requested(l));
  }

  lemma WholeDuty(period: int)
    requires PeriodInSteps(period)
    ensures OnTime(period) * 1_000_000 == 20_000 * period && OffTime(period) * 1_000_000 == 980_000 * period
  {
    assert period == 200 * (period / 200);
    assert period / 100 == 2 * (period / 200);
  }

  lemma TickArmsPeriod(l: Led)
    requires PeriodInSteps(l.period) && l.period <= INT_MAX
    ensures React(l, Tick).armed.Nanos() == Requested(l) * 1_000_000 && 0 < Requested(l) <= INT_MAX
    ensures React(l, Tick).armed.Normalised()
  {
    assert 200 <= l.period;
    DutyExactness(l.period);
    TickArms(l);
  }

  /** The ms last requested, r before the run. */
  function LastRequest(l: Led, es: seq<Event>, r: int): int
    decreases es
  {
    if es == [] then r else LastRequest(React(l, es[0]), es[1..], if es[0].Tick? then Requested(l) else r)
  }

  lemma StepInv(l: Led, e: Event, r: int)
    requires Inv(l, r) && l.period <= INT_MAX
    ensures Inv(React(l, e), if e.Tick? then Requested(l) else r)
  {
    if e.Tick? {
      TickArmsPeriod(l);
    }
  }

  /** In every run in which the presses of the first button cannot exceed an int, the
      period is a positive multiple of 200, and the timer is armed in every state with
      exactly the delay last requested. */
  lemma {:induction false} NeverDisarmed(l: Led, es: seq<Event>, r: int)
    requires Inv(l, r)
    requires l.period + STEP_MS * Increases(es) <= INT_MAX && DEFAULT_TIME_MS + STEP_MS * Increases(es) <= INT_MAX
    ensures Inv(After(l, es), LastRequest(l, es, r))
    decreases es
  {
    if es != [] {
      StepInv(l, es[0], r);
      NeverDisarmed(React(l, es[0]), es[1..], if es[0].Tick? then Requested(l) else r);
    }
  }

  lemma FromStart(es: seq<Event>)
    requires Increases(es) <= 10_000_000
    ensures Inv(After(INITIAL, es), LastRequest(INITIAL, es, DEFAULT_TIME_MS))
  {
    NeverDisarmed(INITIAL, es, DEFAULT_TIME_MS);
  }

  // ---- The waveform ----

  /** Time in ms from the moment the LED goes on to its n-th flip after that. */
  function FlipTime(period: int, n: nat): int { n / 2 * period + if n % 2 == 1 then OnTime(period) else 0 }

  /** The time that passes while the timer expires n more times, in nanoseconds. */
  function Elapsed(l: Led, n: nat): int
    decreases n
  {
    if n == 0 then 0 else l.armed.Nanos() + Elapsed(React(l, Tick), n - 1)
  }

  lemma NextFlipTime(period: int, n: nat)
    requires n >= 2
    ensures FlipTime(period, n) == FlipTime(period, n - 2) + period
  {
    assert n / 2 == (n - 2) / 2 + 1;
    assert n / 2 * period == (n - 2) / 2 * period + period;
  }

  /** One phase on, one phase off, together a period. */
  lemma TwoPhases(l: Led)
    requires 100 <= l.period <= INT_MAX && !l.isOn
    ensures var on, off := React(l, Tick), React(React(l, Tick), Tick);
            && !on.armed.Disarms() && !off.armed.Disarms()
            && off.period == l.period && !off.isOn
            && on.armed.Nanos() == OnTime(l.period) * 1_000_000
            && on.armed.Nanos() + off.armed.Nanos() == l.period * 1_000_000
  {
    DutyExactness(l.period);
    TickArms(l);
    TickArms(React(l, Tick));
  }

  lemma ElapsedOn(l: Led, n: nat)
    requires n > 0
    ensures Elapsed(l, n) == l.armed.Nanos() + Elapsed(React(l, Tick), n - 1)
  {}

  lemma FirstFlips(period: int)
    ensures FlipTime(period, 0) == 0 && FlipTime(period, 1) == OnTime(period)
  {}

  /** With the period left alone, the n-th expiry after an LED-on tick happens at the n-th
      flip time: on for 2 percent, off for the rest, over and over. */
  lemma {:induction false} Waveform(l: Led, n: nat)
    requires 100 <= l.period <= INT_MAX && !l.isOn
    ensures !React(l, Tick).armed.Disarms() && !React(React(l, Tick), Tick).armed.Disarms()
    ensures Elapsed(React(l, Tick), n) == FlipTime(l.period, n) * 1_000_000
    decreases n
  {
    var on := React(l, Tick);
    var off := React(on, Tick);
    TwoPhases(l);
    FirstFlips(l.period);
    if n >= 2 {
      Waveform(off, n - 2);
      ElapsedOn(on, n);
      ElapsedOn(off, n - 1);
      NextFlipTime(l.period, n);
    } else if n == 1 {
      ElapsedOn(on, 1);
    }
  }
}
