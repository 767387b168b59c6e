/**
  The LED controller that polls the clock in a loop, on an arbitrary sequence of clock
  readings, and its relation to the timer-driven one.
 */
module LedPolling {
  import opened CInt
  import opened LedTimer

  /** p1 and p2 of a period given in ms, in ns. */
  function P1(periodMs: int): int { TruncDiv(periodMs * 1_000_000, 100) * DUTY_CYCLE_PERCENT }

  function P2(periodMs: int): int { periodMs * 1_000_000 - P1(periodMs) }

  function Nominal(periodMs: int, phase: nat): int {
    if phase % 2 == 0 then P1(periodMs) else P2(periodMs)
  }

  function Since(clock: seq<Timespec>, i: nat, j: nat): int
    requires i < |clock| && j < |clock|
  {
    clock[j].Nanos() - clock[i].Nanos()
  }

  /** No reading between the two has reached the nominal length. */
  ghost predicate Running(clock: seq<Timespec>, from: nat, to: nat, nominal: int)
    requires from < |clock| && to <= |clock|
  {
    forall i :: from < i < to ==> Since(clock, from, i) < nominal
  }

  /** Readings from and to bound one phase: to is the first at which it has its length. */
  ghost predicate Phase(clock: seq<Timespec>, nominal: int, from: nat, to: nat) {
    from < to < |clock| && Since(clock, from, to) >= nominal && Running(clock, from, to, nominal)
  }

  /** marks[0] is the start, and marks[j] the reading of the j-th toggle; the phase after
      the last toggle is still running at reading upTo. */
  ghost predicate TogglesAt(clock: seq<Timespec>, periodMs: int, upTo: nat, marks: seq<nat>) {
    && |marks| > 0 && marks[0] == 0
    && (forall j :: 0 <= j < |marks| ==> marks[j] < upTo <= |clock|)
    && (forall j, k :: 0 <= j && k == j + 1 < |marks| ==> Phase(clock, Nominal(periodMs, j), marks[j], marks[k]))
    && Running(clock, marks[|marks| - 1], upTo, Nominal(periodMs, |marks| - 1))
  }

  /** One more reading either ends the running phase or extends it. */
  lemma NextMark(clock: seq<Timespec>, periodMs: int, i: nat, marks: seq<nat>)
    requires i < |clock| && TogglesAt(clock, periodMs, i, marks)
    ensures TogglesAt(clock, periodMs, i + 1,
              if Since(clock, marks[|marks| - 1], i) >= Nominal(periodMs, |marks| - 1) then marks + [i] else marks)
  {
    var n := |marks| - 1;
    var nominal := Nominal(periodMs, n);
    if Since(clock, marks[n], i) >= nominal {
      assert Phase(clock, nominal, marks[n], i);
      assert Running(clock, i, i + 1, Nominal(periodMs, n + 1));
    } else {
      assert Running(clock, marks[n], i + 1, nominal);
    }
  }

  lemma NextPhase(n: nat, k: int)
    requires k == n % 2
    ensures 0 <= k < 2 && (k + 1) % 2 == (n + 1) % 2
  {}

  /** The polling loop on the given clock readings, the first one taken before the loop;
      ledOn is what was last written to the LED. */
  method Poll(periodMs: int, clock: seq<Timespec>) returns (marks: seq<nat>, ledOn: bool)
    requires |clock| > 0
    ensures TogglesAt(clock, periodMs, |clock|, marks)
    ensures ledOn <==> (|marks| - 1) % 2 == 0
  {
    var period := periodMs * 1_000_000;
    var p1 := TruncDiv(period, 100) * 2;
    var p2 := period - p1;
    ledOn := true;
    var t1 := clock[0];
    var k := 0;
    marks := [0];
    for i := 1 to |clock|
      invariant TogglesAt(clock, periodMs, i, marks)
      invariant t1 == clock[marks[|marks| - 1]]
      invariant k == (|marks| - 1) % 2 && (if k == 0 then p1 else p2) == Nominal(periodMs, |marks| - 1)
      invariant ledOn <==> k == 0
    {
      var t2 := clock[i];
      var delta := (t2.sec - t1.sec) * 1_000_000_000 + (t2.nsec - t1.nsec);
      assert delta == Since(clock, marks[|marks| - 1], i);
      NextMark(clock, periodMs, i, marks);
      NextPhase(|marks| - 1, k);
      if (k == 0 && delta >= p1) || (k == 1 && delta >= p2) {
        t1 := t2;
        k := (k + 1) % 2;
        ledOn := k == 0;
        marks := marks + [i];
      }
    }
  }

  /** The loop has one possible outcome for given readings. */
  lemma {:induction false} MarksAreDetermined(clock: seq<Timespec>, periodMs: int, a: seq<nat>, b: seq<nat>, j: nat)
    requires TogglesAt(clock, periodMs, |clock|, a) && TogglesAt(clock, periodMs, |clock|, b)
    requires j < |a| && |clock| > 0
    ensures j < |b| && a[j] == b[j]
  {
    if j > 0 {
      MarksAreDetermined(clock, periodMs, a, b, j - 1);
      assert Phase(clock, Nominal(periodMs, j - 1), a[j - 1], a[j]);
      assert j < |b| ==> Phase(clock, Nominal(periodMs, j - 1), b[j - 1], b[j]);
    }
  }

  predicate GapsBelow(clock: seq<Timespec>, gap: int) {
    forall i, j :: 0 <= i && j == i + 1 < |clock| ==> 0 <= Since(clock, i, j) <= gap
  }

  /** On a monotone clock every finished phase lasts at least its nominal length, and less
      than that plus the largest sampling gap. */
  lemma PhaseLength(clock: seq<Timespec>, nominal: int, from: nat, to: nat, gap: int)
    requires Phase(clock, nominal, from, to) && GapsBelow(clock, gap) && nominal > 0
    ensures nominal <= Since(clock, from, to) < nominal + gap
  {
    var last := to - 1;
    assert Since(clock, last, to) <= gap;
    assert Since(clock, from, to) == Since(clock, from, last) + Since(clock, last, to);
    assert Since(clock, from, last) < nominal;
  }

  predicate EveryNanosecond(clock: seq<Timespec>) {
    forall i, j :: 0 <= i && j == i + 1 < |clock| ==> Since(clock, i, j) == 1
  }

  /** Nanoseconds from the start to the j-th toggle of the ideal polling waveform. */
  function ToggleTime(periodMs: int, j: nat): int {
    j / 2 * (periodMs * 1_000_000) + if j % 2 == 1 then P1(periodMs) else 0
  }

  lemma NextToggleTime(periodMs: int, j: nat)
    requires j > 0
    ensures ToggleTime(periodMs, j) == ToggleTime(periodMs, j - 1) + Nominal(periodMs, j - 1)
  {
    var ns := periodMs * 1_000_000;
    if j % 2 == 0 {
      assert j / 2 == (j - 1) / 2 + 1;
      assert j / 2 * ns == (j - 1) / 2 * ns + ns;
    } else {
      assert j / 2 == (j - 1) / 2;
    }
  }

  /** Read every nanosecond, the clock gives toggles exactly at the ideal times. */
  lemma {:induction false} ExactToggles(clock: seq<Timespec>, periodMs: int, marks: seq<nat>, j: nat)
    requires TogglesAt(clock, periodMs, |clock|, marks) && EveryNanosecond(clock)
    requires periodMs > 0 && P1(periodMs) > 0 && j < |marks|
    ensures Since(clock, 0, marks[j]) == ToggleTime(periodMs, j)
  {
    if j > 0 {
      ExactToggles(clock, periodMs, marks, j - 1);
      NextToggleTime(periodMs, j);
      PhaseLength(clock, Nominal(periodMs, j - 1), marks[j - 1], marks[j], 1);
    }
  }

  /** The flip times of the two (in ns, from LED-on) are the same exactly when the period is
      a multiple of 100 ms; the first one differs otherwise. */
  lemma SameWaveform(periodMs: int)
    requires periodMs > 0
    ensures (forall j: nat :: ToggleTime(periodMs, j) == FlipTime(periodMs, j) * 1_000_000) <==> periodMs % 100 == 0
    ensures ToggleTime(periodMs, 1) == FlipTime(periodMs, 1) * 1_000_000 <==> periodMs % 100 == 0
  {
    if periodMs % 100 == 0 {
      assert P1(periodMs) == OnTime(periodMs) * 1_000_000;
      forall j: nat ensures ToggleTime(periodMs, j) == FlipTime(periodMs, j) * 1_000_000 {
        assert j / 2 * (periodMs * 1_000_000) == j / 2 * periodMs * 1_000_000;
      }
    } else {
      assert P1(periodMs) == 20_000 * periodMs;
      assert OnTime(periodMs) * 50 < periodMs;
      assert ToggleTime(periodMs, 1) != FlipTime(periodMs, 1) * 1_000_000;
    }
  }

  /** The polling loop, read every nanosecond, toggles when the timer expires, exactly if
      the period is a multiple of 100 ms. */
  lemma SameTogglesIff(clock: seq<Timespec>, l: Led, marks: seq<nat>)
    requires 100 <= l.period <= INT_MAX && !l.isOn
    requires TogglesAt(clock, l.period, |clock|, marks) && EveryNanosecond(clock) && |marks| > 1
    ensures (forall j :: 0 <= j < |marks| ==> Since(clock, 0, marks[j]) == Elapsed(React(l, Tick), j))
            <==> l.period % 100 == 0
  {
    forall j | 0 <= j < |marks|
      ensures Since(clock, 0, marks[j]) == ToggleTime(l.period, j)
      ensures Elapsed(React(l, Tick), j) == FlipTime(l.period, j) * 1_000_000
    {
      Waveform(l, j);
      assert P1(l.period) > 0;
      ExactToggles(clock, l.period, marks, j);
    }
    SameWaveform(l.period);
    if l.period % 100 != 0 {
      assert Since(clock, 0, marks[1]) != Elapsed(React(l, Tick), 1);
    }
  }

  lemma StepsAreHundreds(period: int)
    requires PeriodInSteps(period)
    ensures period % 100 == 0 && period >= 100
  {
    assert period == STEP_MS * (period / STEP_MS);
  }

  /** The periods the timer-driven controller reaches are such multiples. */
  lemma PollingRefinesTimer(clock: seq<Timespec>, l: Led, marks: seq<nat>, j: nat)
    requires PeriodInSteps(l.period) && l.period <= INT_MAX && !l.isOn
    requires TogglesAt(clock, l.period, |clock|, marks) && EveryNanosecond(clock)
    requires j < |marks|
    ensures Since(clock, 0, marks[j]) == Elapsed(React(l, Tick), j)
  {
    StepsAreHundreds(l.period);
    if |marks| > 1 {
      SameTogglesIff(clock, l, marks);
    }
  }
}
