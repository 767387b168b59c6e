/**
  The daemon: the user side of the sysfs files, the application calls built on it,
  and the dispatch of IPC messages. No call here interleaves with another; what
  happens when calls do interleave is the subject of RegulatorRuns.
 */
module Daemon {
  import opened CInt
  import opened SysfsText
  import opened Regulator

  const CMD_SET_MODE := 10
  const CMD_SET_PERIOD := 20
  const CMD_INC_PERIOD := 30
  const CMD_DEC_PERIOD := 40

  /** What a message does to the regulator. */
  function Dispatched(c: Core, command: int, value: int): Core {
    if command == CMD_SET_MODE then WithMode(c, value)
    else if command == CMD_SET_PERIOD then WithPeriod(c, value)
    else if command == CMD_INC_PERIOD then Increased(c)
    else if command == CMD_DEC_PERIOD then Decreased(c)
    else c
  }

  class App {
    const kernel: Regulator

    constructor (k: Regulator)
      ensures kernel == k
    {
      kernel := k;
    }

    method SysfsGetMode() returns (m: int)
      requires kernel.Valid()
      ensures m == kernel.mode
    {
      m := 0;
      var text := kernel.ModeShow();
      var scanned := ScanUnsigned(text);
      if scanned.Some? {
        m := scanned.value;
      }
    }

    /** The argument is printed as unsigned, so a negative mode is refused by kstrtoint. */
    method SysfsSetMode(m: int)
      requires kernel.Valid() && -INT_MAX - 1 <= m < U32
      modifies kernel
      ensures kernel.Valid() && kernel.State() == WithMode(old(kernel.State()), m)
    {
      LineRoundTrip(m % U32);
      kernel.ModeStore(Line(m % U32));
    }

    method SysfsGetPeriod() returns (p: int)
      requires kernel.Valid()
      ensures p == kernel.period
    {
      p := 0;
      var text := kernel.PeriodStatusShow();
      var scanned := ScanUnsigned(text);
      if scanned.Some? {
        p := scanned.value;
      }
    }

    method SysfsSetPeriod(p: int)
      requires kernel.Valid() && 0 <= p < U32
      modifies kernel
      ensures kernel.Valid() && kernel.State() == WithPeriod(old(kernel.State()), p)
    {
      LineRoundTrip(p);
      kernel.PeriodSetStore(Line(p));
    }

    /** An accepted period is what the status file then reports. */
    method SetThenGet(p: int) returns (q: int)
      requires kernel.Valid() && 0 <= p < U32
      modifies kernel
      ensures kernel.Valid()
      ensures q == if old(kernel.mode) == MANUAL && p > 0 then p else old(kernel.period)
    {
      SysfsSetPeriod(p);
      q := SysfsGetPeriod();
    }

    method IncreasePeriod()
      requires kernel.Valid()
      modifies kernel
      ensures kernel.Valid() && kernel.State() == Increased(old(kernel.State()))
    {
      var p := SysfsGetPeriod();
      SysfsSetPeriod((p + GAP_PERIOD_MS) % U32);
    }

    method DecreasePeriod()
      requires kernel.Valid()
      modifies kernel
      ensures kernel.Valid() && kernel.State() == Decreased(old(kernel.State()))
    {
      var p := SysfsGetPeriod();
      if p > GAP_PERIOD_MS {
        SysfsSetPeriod(p - GAP_PERIOD_MS);
      }
    }

    method ModeToggle()
      requires kernel.Valid()
      modifies kernel
      ensures kernel.Valid()
      ensures kernel.mode == 1 - old(kernel.mode)
      ensures kernel.period == old(kernel.period) && kernel.blink == old(kernel.blink)
    {
      var m := SysfsGetMode();
      SysfsSetMode(Flip(m));
    }

    method ProcessMessage(command: int, value: int)
      requires kernel.Valid() && 0 <= value < U32
      modifies kernel
      ensures kernel.Valid() && kernel.State() == Dispatched(old(kernel.State()), command, value)
      ensures kernel.mode == if command == 10 && value <= 1 then value else old(kernel.mode)
      ensures command == 20 ==>
                kernel.period == (if old(kernel.mode) == 0 && value > 0 then value else old(kernel.period))
      ensures command == 30 ==> kernel.State() == Increased(old(kernel.State()))
      ensures command == 40 ==> kernel.State() == Decreased(old(kernel.State()))
      ensures command !in {20, 30, 40} ==> kernel.period == old(kernel.period) && kernel.blink == old(kernel.blink)
    {
      if command == CMD_SET_MODE {
        SysfsSetMode(ToInt32(value));
      } else if command == CMD_SET_PERIOD {
        SysfsSetPeriod(value);
      } else if command == CMD_INC_PERIOD {
        IncreasePeriod();
      } else if command == CMD_DEC_PERIOD {
        DecreasePeriod();
      }
    }
  }
}
