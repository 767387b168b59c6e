/**
  The kernel side of the mini-project: mode, period and blink period, the callbacks
  that change them, and the sysfs handlers in front of the callbacks.
 */
module Regulator {
  import opened CInt
  import opened SysfsText
  import opened Sensor

  const AUTO := 1
  const MANUAL := 0
  const GAP_PERIOD_MS := 50

  /** What regulator_lock protects, and the blink period read by the blink thread. */
  datatype Core = Core(mode: int, period: int, blink: int) {
    predicate Valid() {
      (mode == AUTO || mode == MANUAL) && 0 < period < U32 && blink == ToInt32(period)
    }
  }

  const INITIAL := Core(AUTO, 1000, 1000)

  // ---- The effect of each critical section ----

  function WithMode(c: Core, m: int): Core {
    if m == MANUAL || m == AUTO then c.(mode := m) else c
  }

  /** The two assignments made when a period is accepted. */
  function Applied(c: Core, p: int): Core { c.(period := p, blink := ToInt32(p)) }

  function WithPeriod(c: Core, p: int): Core {
    if c.mode == MANUAL && p > 0 then Applied(c, p) else c
  }

  function WithAutoPeriod(c: Core, p: int): Core {
    if p != c.period then Applied(c, p) else c
  }

  // ---- The effect of the daemon's read-modify-write calls, taken as atomic ----

  function Increased(c: Core): Core { WithPeriod(c, (c.period + GAP_PERIOD_MS) % U32) }

  function Decreased(c: Core): Core {
    if c.period > GAP_PERIOD_MS then WithPeriod(c, c.period - GAP_PERIOD_MS) else c
  }

  /** `m ^ 1` */
  function Flip(m: int): int { if m % 2 == 0 then m + 1 else m - 1 }

  function Toggled(c: Core): Core { WithMode(c, Flip(c.mode)) }

  // ---- The blink thread ----

  /** The argument of msleep(period >> 1), converted to unsigned. */
  function HalfSleep(blink: int): nat { (blink / 2) % U32 }

  /** The LED's half period is half the regulator's period exactly when the period fits
      the int that adjust_period takes. */
  lemma HalfSleepExactness(p: int)
    requires 0 < p < U32
    ensures HalfSleep(ToInt32(p)) == p / 2 <==> p <= INT_MAX
    ensures p > INT_MAX ==> HalfSleep(ToInt32(p)) == p / 2 + 0x8000_0000
  {}

  /** An increase or decrease, in numbers: 50 ms in Manual mode, wrapping at 2^32 and never
      to 0, with 50 ms as the least value a decrease starts from; nothing in Auto. */
  lemma StepExactness(c: Core)
    requires c.Valid()
    ensures Increased(c).Valid() && Decreased(c).Valid()
    ensures c.mode == 1 ==> Increased(c) == c && Decreased(c) == c
    ensures c.mode == 0 ==> Increased(c).mode == Decreased(c).mode == 0
    ensures c.mode == 0 ==> Decreased(c).period == (if c.period > 50 then c.period - 50 else c.period)
    ensures c.mode == 0 && c.period < 0xFFFF_FFCE ==> Increased(c).period == c.period + 50
    ensures c.mode == 0 && c.period == 0xFFFF_FFCE ==> Increased(c).period == c.period
    ensures c.mode == 0 && c.period > 0xFFFF_FFCE ==> Increased(c).period == c.period - 0xFFFF_FFCE
  {}

  lemma AutoPeriodFitsInt(p: int)
    requires IsAutoPeriod(p)
    ensures ToInt32(p) == p && 0 < p < U32
  {}

  class Regulator {
    var mode: int
    var period: int
    var blink: int

    function State(): Core
      reads this
    {
      Core(mode, period, blink)
    }

    predicate Valid()
      reads this
    {
      State().Valid()
    }

    constructor ()
      ensures Valid() && State() == INITIAL
      ensures mode == 1 && period == 1000 && blink == 1000
    {
      mode, period, blink := 1, 1000, 1000;
    }

    method CbGetMode() returns (m: int)
      ensures m == mode
    {
      m := mode;
    }

    method CbSetMode(m: int)
      requires Valid()
      modifies this
      ensures Valid() && State() == WithMode(old(State()), m)
      ensures mode == (if m == 0 || m == 1 then m else old(mode)) && period == old(period) && blink == old(blink)
    {
      if m == 0 || m == 1 {
        mode := m;
      }
    }

    method CbGetPeriod() returns (p: int)
      ensures p == period
    {
      p := period;
    }

    method AdjustPeriod(newPeriod: int)
      modifies this`blink
      ensures blink == ToInt32(newPeriod)
    {
      blink := ToInt32(newPeriod);
    }

    method CbSetPeriod(ms: int)
      requires Valid() && 0 <= ms < U32
      modifies this
      ensures Valid() && State() == WithPeriod(old(State()), ms)
      ensures mode == old(mode) && period == if old(mode) == 0 && ms > 0 then ms else old(period)
      ensures period == old(period) ==> blink == old(blink)
    {
      if mode == 0 {
        if ms > 0 {
          period := ms;
          AdjustPeriod(period);
        }
      }
    }

    method ProcessAutoMode(raw: nat)
      requires Valid() && raw < U32
      modifies this
      ensures Valid() && State() == WithAutoPeriod(old(State()), PeriodForRaw(raw))
      ensures mode == old(mode) && period == blink
      ensures var c := ReadTemp(raw) / 1000;
              && (c < 35 ==> period == 500) && (35 <= c < 40 ==> period == 200)
              && (40 <= c < 45 ==> period == 100) && (45 <= c ==> period == 50)
    {
      var milli := ReadTemp(raw);
      var c := milli / 1000;
      var newPeriod := 2;
      if c < 35 {
        newPeriod := 500;
      } else if c < 40 {
        newPeriod := 200;
      } else if c < 45 {
        newPeriod := 100;
      } else {
        newPeriod := 50;
      }
      assert newPeriod == PeriodForRaw(raw);
      AutoPeriodFitsInt(newPeriod);
      if newPeriod != period {
        period := newPeriod;
        AdjustPeriod(period);
      }
    }

    /** One turn of regulator_thread_fn when nothing interleaves. */
    method ThreadPass(raw: nat)
      requires Valid() && raw < U32
      modifies this
      ensures Valid()
      ensures State() == if old(mode) == AUTO then WithAutoPeriod(old(State()), PeriodForRaw(raw)) else old(State())
      ensures old(mode) == 1 && raw <= PRODUCT_FITS ==> period == Band(raw)
    {
      if raw <= PRODUCT_FITS {
        PeriodBands(raw);
      }
      var m := CbGetMode();
      if m == 1 {
        ProcessAutoMode(raw);
      }
    }

    // ---- sysfs handlers ----

    method ModeShow() returns (buf: string)
      requires Valid()
      ensures ScanUnsigned(buf) == Some(mode)
    {
      var m := CbGetMode();
      LineRoundTrip(m);
      buf := Line(m);
    }

    method ModeStore(buf: string)
      requires Valid()
      modifies this
      ensures Valid()
      ensures State() == match Kstrtoint(buf) case Some(m) => WithMode(old(State()), m) case None => old(State())
    {
      var m := Kstrtoint(buf);
      if m.Some? {
        CbSetMode(m.value);
      }
    }

    method PeriodStatusShow() returns (buf: string)
      requires Valid()
      ensures ScanUnsigned(buf) == Some(period)
    {
      var p := CbGetPeriod();
      LineRoundTrip(p);
      buf := Line(p);
    }

    method PeriodSetStore(buf: string)
      requires Valid()
      modifies this
      ensures Valid()
      ensures State() == match Kstrtouint(buf) case Some(p) => WithPeriod(old(State()), p) case None => old(State())
    {
      var p := Kstrtouint(buf);
      if p.Some? {
        CbSetPeriod(p.value);
      }
    }

    method TemperatureShow(raw: nat) returns (buf: string)
      requires raw < U32
      ensures DecodeTemperature(buf) == Some(ReadTemp(raw))
    {
      var t := ReadTemp(raw);
      TemperatureRoundTrip(t);
      buf := TemperatureLine(t);
    }
  }
}
