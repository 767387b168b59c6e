/**
  The regulator thread, any number of client threads (buttons, IPC, direct writers of
  the sysfs files) and the locks that decide who runs when. A step is one lock-protected
  region, except that the region that changes the period is cut in two, because the
  blink thread reads blink_period_ms without regulator_lock.
 */
module RegulatorRuns {
  import opened CInt
  import opened Sensor
  import opened Regulator

  datatype Kind = Inc | Dec | Toggle

  /** A call made by a client thread. */
  datatype Call =
    | DirectMode(mode: int)      // set_mode: no app_lock
    | DirectPeriod(period: int)  // set_period: no app_lock
    | Locked(kind: Kind)         // increase_period, decrease_period, mode_toggle

  datatype Pc =
    | Idle
    | SetsMode(m: int)
    | SetsPeriod(p: int)
    | AwaitsApp(kind: Kind)
    | Reads(kind: Kind)                  // holds app_lock
    | Stores(kind: Kind, v: int)         // holds app_lock, v computed from what was read
    | Adjusts(app: bool)                 // holds regulator_lock, blink period not yet written
    | LeavesApp                          // holds app_lock

  datatype RegPc =
    | Samples                            // about to read the mode, or in msleep before it
    | Senses                             // mode 1 was read: about to read the temperature
    | StoresAuto(v: int)                 // about to lock again and write
    | AdjustsAuto                        // holds regulator_lock

  datatype Owner = Free | ByRegulator | ByClient(t: nat)

  datatype State = State(core: Core, regLock: Owner, appLock: Owner, reg: RegPc, clients: seq<Pc>)

  datatype Action =
    | Begin(t: nat, call: Call)
    | Client(t: nat)
    | RegulatorStep(raw: nat)            // raw: what the sensor shows, if it is read

  function Initial(n: nat): State {
    State(INITIAL, Free, Free, Samples, seq(n, _ => Idle))
  }

  predicate ValidCall(c: Call) {
    match c
    case DirectMode(m) => -INT_MAX - 1 <= m <= INT_MAX
    case DirectPeriod(p) => 0 <= p < U32
    case Locked(_) => true
  }

  predicate Enabled(s: State, a: Action) {
    match a
    case Begin(t, c) => t < |s.clients| && s.clients[t].Idle? && ValidCall(c)
    case Client(t) =>
      && t < |s.clients|
      && (match s.clients[t]
          case Idle => false
          case AwaitsApp(_) => s.appLock.Free?
          case Adjusts(_) => true
          case LeavesApp => true
          case _ => s.regLock.Free?)
    case RegulatorStep(raw) =>
      && raw < U32
      && (s.reg.Senses? || s.reg.AdjustsAuto? || s.regLock.Free?)
  }

  // ---- One step ----

  function At(s: State, t: nat, pc: Pc): State
    requires t < |s.clients|
  {
    s.(clients := s.clients[t := pc])
  }

  /** The first half of cb_set_period: the check and the period itself. */
  function StorePeriod(s: State, t: nat, p: int, app: bool): State
    requires t < |s.clients|
  {
    if s.core.mode == MANUAL && p > 0 then
      At(s.(core := s.core.(period := p), regLock := ByClient(t)), t, Adjusts(app))
    else
      At(s, t, if app then LeavesApp else Idle)
  }

  /** What a call under app_lock will write, from what it read. */
  function Computed(k: Kind, c: Core): int {
    match k
    case Inc => (c.period + GAP_PERIOD_MS) % U32
    case Dec => c.period - GAP_PERIOD_MS
    case Toggle => Flip(c.mode)
  }

  function ClientDo(s: State, t: nat): State
    requires t < |s.clients| && !s.clients[t].Idle?
  {
    match s.clients[t]
    case SetsMode(m) => At(s.(core := WithMode(s.core, m)), t, Idle)
    case SetsPeriod(p) => StorePeriod(s, t, p, false)
    case AwaitsApp(k) => At(s.(appLock := ByClient(t)), t, Reads(k))
    case Reads(k) =>
      if k == Dec && s.core.period <= GAP_PERIOD_MS then At(s, t, LeavesApp)
      else At(s, t, Stores(k, Computed(k, s.core)))
    case Stores(k, v) =>
      if k == Toggle then At(s.(core := WithMode(s.core, v)), t, LeavesApp)
      else StorePeriod(s, t, v, true)
    case Adjusts(app) =>
      At(s.(core := s.core.(blink := ToInt32(s.core.period)), regLock := Free), t,
         if app then LeavesApp else Idle)
    case LeavesApp => At(s.(appLock := Free), t, Idle)
  }

  function RegulatorDo(s: State, raw: nat): State
    requires raw < U32
  {
    match s.reg
    case Samples => if s.core.mode == AUTO then s.(reg := Senses) else s
    case Senses => s.(reg := StoresAuto(PeriodForRaw(raw)))
    case StoresAuto(v) =>
      if v != s.core.period then
        s.(core := s.core.(period := v), regLock := ByRegulator, reg := AdjustsAuto)
      else s.(reg := Samples)
    case AdjustsAuto =>
      s.(core := s.core.(blink := ToInt32(s.core.period)), regLock := Free, reg := Samples)
  }

  function Do(s: State, a: Action): State
    requires Enabled(s, a)
  {
    match a
    case Begin(t, DirectMode(m)) => At(s, t, SetsMode(m))
    case Begin(t, DirectPeriod(p)) => At(s, t, SetsPeriod(p))
    case Begin(t, Locked(k)) => At(s, t, AwaitsApp(k))
    case Client(t) => ClientDo(s, t)
    case RegulatorStep(raw) => RegulatorDo(s, raw)
  }

  // ---- Runs ----

  predicate Runs(s: State, acts: seq<Action>)
    decreases acts
  {
    acts == [] || (Enabled(s, acts[0]) && Runs(Do(s, acts[0]), acts[1..]))
  }

  function After(s: State, acts: seq<Action>): State
    requires Runs(s, acts)
    decreases acts
  {
    if acts == [] then s else After(Do(s, acts[0]), acts[1..])
  }

  /** Every state of the run has this mode. */
  predicate ModeStays(s: State, acts: seq<Action>, mode: int)
    requires Runs(s, acts)
    decreases acts
  {
    s.core.mode == mode && (acts == [] || ModeStays(Do(s, acts[0]), acts[1..], mode))
  }

  lemma {:induction false} RunsConcat(s: State, a: seq<Action>, b: seq<Action>)
    requires Runs(s, a) && Runs(After(s, a), b)
    ensures Runs(s, a + b) && After(s, a + b) == After(After(s, a), b)
    decreases a
  {
    if a == [] {
      assert a + b == b;
    } else {
      RunsConcat(Do(s, a[0]), a[1..], b);
      assert (a + b)[1..] == a[1..] + b;
    }
  }

  // ---- The invariant ----

  predicate HoldsApp(pc: Pc) {
    pc.Reads? || pc.Stores? || pc.LeavesApp? || (pc.Adjusts? && pc.app)
  }

  predicate PcInRange(pc: Pc) {
    match pc
    case SetsPeriod(p) => 0 <= p < U32
    case Stores(k, v) => if k == Toggle then v == MANUAL || v == AUTO else 0 <= v < U32
    case _ => true
  }

  predicate Inv(s: State) {
    && (s.core.mode == MANUAL || s.core.mode == AUTO)
    && 0 < s.core.period < U32
    && (s.regLock.Free? ==> s.core.blink == ToInt32(s.core.period))
    && (s.reg.AdjustsAuto? <==> s.regLock == ByRegulator)
    && (s.reg.StoresAuto? ==> IsAutoPeriod(s.reg.v))
    && !s.appLock.ByRegulator?
    && (forall t {:trigger s.clients[t]} :: 0 <= t < |s.clients| ==>
          && PcInRange(s.clients[t])
          && (s.clients[t].Adjusts? <==> s.regLock == ByClient(t))
          && (HoldsApp(s.clients[t]) <==> s.appLock == ByClient(t)))
    && (s.regLock.ByClient? ==> s.regLock.t < |s.clients|)
    && (s.appLock.ByClient? ==> s.appLock.t < |s.clients|)
  }

  lemma InitialInv(n: nat)
    ensures Inv(Initial(n))
  {}

  lemma StorePeriodInv(s: State, t: nat, p: int, app: bool)
    requires Inv(s) && s.regLock.Free? && t < |s.clients| && 0 <= p < U32
    requires HoldsApp(s.clients[t]) <==> app
    ensures Inv(StorePeriod(s, t, p, app))
  {}

  lemma ClientInv(s: State, t: nat)
    requires Inv(s) && Enabled(s, Client(t))
    ensures Inv(ClientDo(s, t))
  {
    match s.clients[t]
    case SetsPeriod(p) => StorePeriodInv(s, t, p, false);
    case Stores(k, v) =>
      if k != Toggle {
        StorePeriodInv(s, t, v, true);
      }
    case _ =>
  }

  lemma RegulatorInv(s: State, raw: nat)
    requires Inv(s) && Enabled(s, RegulatorStep(raw))
    ensures Inv(RegulatorDo(s, raw))
  {}

  lemma StepInv(s: State, a: Action)
    requires Inv(s) && Enabled(s, a)
    ensures Inv(Do(s, a))
  {
    match a
    case Begin(_, _) =>
    case Client(t) => ClientInv(s, t);
    case RegulatorStep(raw) => RegulatorInv(s, raw);
  }

  /** Both locks are exclusive and the data is in range in every reachable state; whenever
      regulator_lock is free, the blink period is the int image of the period. */
  lemma {:induction false} RunInv(s: State, acts: seq<Action>)
    requires Inv(s) && Runs(s, acts)
    ensures Inv(After(s, acts))
    decreases acts
  {
    if acts != [] {
      StepInv(s, acts[0]);
      RunInv(Do(s, acts[0]), acts[1..]);
    }
  }

  lemma ReachableStates(n: nat, acts: seq<Action>)
    requires Runs(Initial(n), acts)
    ensures var s := After(Initial(n), acts); Inv(s) && (s.regLock.Free? ==> s.core.Valid())
  {
    InitialInv(n);
    RunInv(Initial(n), acts);
  }

  /** Run without interruption, the two halves of a period region are the callback:
      cb_set_period for a client, the write of process_auto_mode for the regulator. */
  lemma RegionsAreCallbacks(s: State, t: nat, raw: nat)
    requires Inv(s) && s.regLock.Free? && raw < U32
    requires t < |s.clients| && s.clients[t].SetsPeriod?
    ensures var s1 := Do(s, Client(t));
            WithPeriod(s.core, s.clients[t].p) == if s1.clients[t].Adjusts? then Do(s1, Client(t)).core else s1.core
    ensures s.reg.StoresAuto? ==>
            var s1 := Do(s, RegulatorStep(raw));
            WithAutoPeriod(s.core, s.reg.v) == if s1.reg.AdjustsAuto? then Do(s1, RegulatorStep(raw)).core else s1.core
  {}

  /** While someone holds regulator_lock, nobody else gets through a region: the data does
      not change, and whoever is about to read or write it stays where it is. */
  lemma RegionsExclude(s: State, a: Action)
    requires Inv(s) && Enabled(s, a) && !s.regLock.Free?
    requires a.RegulatorStep? ==> s.regLock != ByRegulator
    requires a.Client? ==> s.regLock != ByClient(a.t)
    ensures Do(s, a).core == s.core && Do(s, a).regLock == s.regLock
    ensures forall t :: 0 <= t < |s.clients| && InRegion(s.clients[t]) ==> Do(s, a).clients[t] == s.clients[t]
    ensures s.reg.Samples? || s.reg.StoresAuto? ==> Do(s, a).reg == s.reg
  {}

  predicate InRegion(pc: Pc) { pc.SetsMode? || pc.SetsPeriod? || pc.Reads? || pc.Stores? || pc.Adjusts? }

  /** A pass that reads the sensor goes on to write the period of the reading's band. */
  lemma PassStoresBand(s: State, raw: nat)
    requires Inv(s) && s.reg.Senses? && raw <= PRODUCT_FITS
    ensures Enabled(s, RegulatorStep(raw)) && Do(s, RegulatorStep(raw)) == s.(reg := StoresAuto(Band(raw)))
    ensures s.regLock.Free? ==>
            Do(Do(s, RegulatorStep(raw)), RegulatorStep(raw)).core.period == Band(raw)
  {
    PeriodBands(raw);
  }

  lemma StepIsRun(s: State, a: Action, rest: seq<Action>)
    requires Enabled(s, a) && Runs(Do(s, a), rest)
    ensures Runs(s, [a] + rest) && After(s, [a] + rest) == After(Do(s, a), rest)
  {
    assert ([a] + rest)[1..] == rest;
  }

  /** Run without interruption, the regulator's steps are one turn of its thread: in Auto
      the period of the reading is set, in Manual nothing changes. */
  lemma PassRuns(s: State, raw: nat) returns (acts: seq<Action>)
    requires Inv(s) && s.reg.Samples? && s.regLock.Free? && raw < U32
    ensures acts != [] && (forall i :: 0 <= i < |acts| ==> acts[i] == RegulatorStep(raw)) && Runs(s, acts)
    ensures After(s, acts)
            == s.(core := if s.core.mode == AUTO then WithAutoPeriod(s.core, PeriodForRaw(raw)) else s.core)
    ensures s.core.mode == AUTO && raw <= PRODUCT_FITS ==> After(s, acts).core.period == Band(raw)
  {
    var a := RegulatorStep(raw);
    acts := [a] + [];
    if s.core.mode == AUTO {
      var s1 := Do(s, a);
      var s2 := Do(s1, a);
      var s3 := Do(s2, a);
      if s2.reg.v != s.core.period {
        StepIsRun(s3, a, []);
        StepIsRun(s2, a, [a] + []);
        acts := [a] + acts;
      } else {
        StepIsRun(s2, a, []);
      }
      StepIsRun(s1, a, acts);
      acts := [a] + acts;
      StepIsRun(s, a, acts);
      acts := [a] + acts;
      if raw <= PRODUCT_FITS {
        PeriodBands(raw);
      }
    } else {
      StepIsRun(s, a, []);
    }
  }

  // ---- Who wrote the period ----

  datatype Event = Quiet | AutoWrite(v: int) | ManualWrite(v: int)

  function EventOf(s: State, a: Action): Event
    requires Enabled(s, a)
  {
    match a
    case Begin(_, _) => Quiet
    case Client(t) => (
      match s.clients[t]
      case SetsPeriod(p) => if s.core.mode == MANUAL && p > 0 then ManualWrite(p) else Quiet
      case Stores(k, v) => if k != Toggle && s.core.mode == MANUAL && v > 0 then ManualWrite(v) else Quiet
      case _ => Quiet)
    case RegulatorStep(_) => if s.reg.StoresAuto? then AutoWrite(s.reg.v) else Quiet
  }

  /** The regulator has read mode 1 and has not yet written. */
  predicate InFlight(s: State) { s.reg.Senses? || s.reg.StoresAuto? }

  /** What a step's event says about the step. */
  lemma StepEffect(s: State, a: Action)
    requires Enabled(s, a)
    ensures var e := EventOf(s, a); Do(s, a).core.period == if e.Quiet? then s.core.period else e.v
    ensures EventOf(s, a).AutoWrite? <==> a.RegulatorStep? && s.reg.StoresAuto?
    ensures EventOf(s, a).AutoWrite? ==> EventOf(s, a).v == s.reg.v && !InFlight(Do(s, a))
    ensures EventOf(s, a).ManualWrite? ==> s.core.mode == MANUAL
    ensures InFlight(Do(s, a)) ==> InFlight(s) || s.core.mode == AUTO
  {}

  function Trace(s: State, acts: seq<Action>): seq<Event>
    requires Runs(s, acts)
    decreases acts
  {
    if acts == [] then [] else [EventOf(s, acts[0])] + Trace(Do(s, acts[0]), acts[1..])
  }

  function AutoWrites(tr: seq<Event>): nat {
    if tr == [] then 0 else (if tr[0].AutoWrite? then 1 else 0) + AutoWrites(tr[1..])
  }

  /** The last value written, by anyone. */
  function LastWritten(tr: seq<Event>, before: int): int {
    if tr == [] then before
    else LastWritten(tr[1..], if tr[0].Quiet? then before else tr[0].v)
  }

  /** The last manual value accepted. */
  function LastManual(tr: seq<Event>, before: int): int {
    if tr == [] then before
    else LastManual(tr[1..], if tr[0].ManualWrite? then tr[0].v else before)
  }

  lemma {:induction false} PeriodIsLastWritten(s: State, acts: seq<Action>)
    requires Runs(s, acts)
    ensures After(s, acts).core.period == LastWritten(Trace(s, acts), s.core.period)
    decreases acts
  {
    if acts != [] {
      var s' := Do(s, acts[0]);
      StepEffect(s, acts[0]);
      PeriodIsLastWritten(s', acts[1..]);
      assert Trace(s, acts)[1..] == Trace(s', acts[1..]);
    }
  }

  /** While the mode stays Manual there is at most one automatic write, and only when a
      pass was in flight at the start. */
  lemma {:induction false} StaleWrites(s: State, acts: seq<Action>)
    requires Runs(s, acts) && ModeStays(s, acts, MANUAL)
    ensures AutoWrites(Trace(s, acts)) <= if InFlight(s) then 1 else 0
    decreases acts
  {
    if acts != [] {
      StepEffect(s, acts[0]);
      var s' := Do(s, acts[0]);
      StaleWrites(s', acts[1..]);
      assert Trace(s, acts)[1..] == Trace(s', acts[1..]);
    }
  }

  /** Over a whole run: cut it anywhere; a stretch that stays Manual holds at most one
      automatic write. */
  lemma AtMostOneStaleWrite(n: nat, before: seq<Action>, stretch: seq<Action>)
    requires Runs(Initial(n), before) && Runs(After(Initial(n), before), stretch)
    requires ModeStays(After(Initial(n), before), stretch, MANUAL)
    ensures Runs(Initial(n), before + stretch)
    ensures AutoWrites(Trace(After(Initial(n), before), stretch)) <= 1
  {
    RunsConcat(Initial(n), before, stretch);
    StaleWrites(After(Initial(n), before), stretch);
  }

  lemma {:induction false} LastOfFewAutoWrites(tr: seq<Event>, p: int, q: int)
    requires AutoWrites(tr) == 0 && p == q
    ensures LastWritten(tr, p) == LastManual(tr, q)
  {
    if tr != [] {
      LastOfFewAutoWrites(tr[1..], if tr[0].Quiet? then p else tr[0].v, if tr[0].ManualWrite? then tr[0].v else q);
    }
  }

  /** While Manual, the period is the last accepted manual value, or the one automatic
      value that a pass in flight wrote after it. */
  lemma {:induction false} ManualPeriod(s: State, acts: seq<Action>)
    requires Inv(s) && Runs(s, acts) && ModeStays(s, acts, MANUAL)
    ensures var p := After(s, acts).core.period;
            || p == LastManual(Trace(s, acts), s.core.period)
            || (InFlight(s) && AutoWrite(p) in Trace(s, acts) && IsAutoPeriod(p)
                && (s.reg.StoresAuto? ==> p == s.reg.v))
    decreases acts
  {
    if acts != [] {
      StepEffect(s, acts[0]);
      var s', e := Do(s, acts[0]), EventOf(s, acts[0]);
      StepInv(s, acts[0]);
      assert Trace(s, acts)[1..] == Trace(s', acts[1..]);
      if e.AutoWrite? {
        var tr := Trace(s', acts[1..]);
        assert Trace(s, acts)[0] == e;
        StaleWrites(s', acts[1..]);
        PeriodIsLastWritten(s', acts[1..]);
        LastOfFewAutoWrites(tr, e.v, e.v);
        EitherValue(tr, e.v, s.core.period);
      } else {
        ManualPeriod(s', acts[1..]);
      }
    }
  }

  /** What was there first matters only if no manual value was accepted since. */
  lemma {:induction false} EitherValue(tr: seq<Event>, p: int, q: int)
    ensures LastManual(tr, p) == LastManual(tr, q) || (LastManual(tr, p) == p && LastManual(tr, q) == q)
  {
    if tr != [] && !tr[0].ManualWrite? {
      EitherValue(tr[1..], p, q);
    }
  }

  /** In every continuation that stays Manual, the period is the last accepted manual value. */
  ghost predicate ManualValueSticks(s: State) { !Loses(s, s.core.period) }

  /** Some continuation that stays Manual ends with a period other than the last accepted
      manual value (p if there was none). */
  ghost predicate Loses(s: State, p: int) {
    exists acts :: Runs(s, acts) && ModeStays(s, acts, MANUAL) &&
      After(s, acts).core.period != LastManual(Trace(s, acts), p)
  }

  /** Client t can finish what it does without leaving Manual mode: it is not about to
      set Auto, nor waiting for somebody else. */
  predicate Frees(s: State, t: nat) {
    && t < |s.clients|
    && (match s.clients[t]
        case SetsMode(m) => m != AUTO
        case AwaitsApp(k) => k != Toggle && s.appLock.Free?
        case Reads(k) => k != Toggle
        case Stores(k, v) => k == Toggle ==> v == MANUAL
        case _ => true)
  }

  /** The pass in flight would write the period that is there already, and no client can
      put another one there first. */
  predicate Harmless(s: State) {
    s.reg == StoresAuto(s.core.period) && forall t :: 0 <= t < |s.clients| ==> !Frees(s, t)
  }

  /** A manual value sticks exactly when no automatic pass is in flight, or a harmless one. */
  lemma ManualValueSticksIff(s: State)
    requires Inv(s) && s.core.mode == MANUAL
    ensures ManualValueSticks(s) <==> !InFlight(s) || Harmless(s)
  {
    if !InFlight(s) {
      SticksWithoutPass(s);
    } else if Harmless(s) {
      forall acts | Runs(s, acts) && ModeStays(s, acts, MANUAL)
        ensures After(s, acts).core.period == LastManual(Trace(s, acts), s.core.period)
      {
        SticksIfHarmless(s, acts);
      }
    } else if s.reg == StoresAuto(s.core.period) {
      var t :| 0 <= t < |s.clients| && Frees(s, t);
      LostManualValue(s, t);
    } else {
      LostToSensor(s);
    }
  }

  lemma SticksWithoutPass(s: State)
    requires Inv(s) && s.core.mode == MANUAL && !InFlight(s)
    ensures ManualValueSticks(s)
  {
    forall acts | Runs(s, acts) && ModeStays(s, acts, MANUAL)
      ensures After(s, acts).core.period == LastManual(Trace(s, acts), s.core.period)
    {
      StaleWrites(s, acts);
      PeriodIsLastWritten(s, acts);
      LastOfFewAutoWrites(Trace(s, acts), s.core.period, s.core.period);
    }
  }

  /** Until the regulator has written, no client writes a period. */
  lemma StepIfHarmless(s: State, a: Action)
    requires Inv(s) && s.core.mode == MANUAL && Harmless(s) && Enabled(s, a) && Do(s, a).core.mode == MANUAL
    ensures Do(s, a).core.period == s.core.period && !EventOf(s, a).ManualWrite?
    ensures if a.RegulatorStep? then !InFlight(Do(s, a)) else Harmless(Do(s, a))
  {
    if !a.RegulatorStep? {
      assert !Frees(s, a.t);
      forall u | 0 <= u < |s.clients| ensures !Frees(Do(s, a), u) {
        assert !Frees(s, u);
      }
    }
  }

  lemma {:induction false} SticksIfHarmless(s: State, acts: seq<Action>)
    requires Inv(s) && Harmless(s) && Runs(s, acts) && ModeStays(s, acts, MANUAL)
    ensures After(s, acts).core.period == LastManual(Trace(s, acts), s.core.period)
    decreases acts
  {
    if acts != [] {
      var s' := Do(s, acts[0]);
      StepInv(s, acts[0]);
      assert ModeStays(s', acts[1..], MANUAL);
      StepIfHarmless(s, acts[0]);
      assert Trace(s, acts)[1..] == Trace(s', acts[1..]);
      if acts[0].RegulatorStep? {
        SticksWithoutPass(s');
      } else {
        SticksIfHarmless(s', acts[1..]);
      }
    }
  }

  /** A run made of one step and a rest. */
  lemma StepThen(s: State, a: Action, rest: seq<Action>)
    requires Enabled(s, a) && Runs(Do(s, a), rest)
    ensures Runs(s, [a] + rest) && After(s, [a] + rest) == After(Do(s, a), rest)
    ensures Trace(s, [a] + rest) == [EventOf(s, a)] + Trace(Do(s, a), rest)
    ensures forall m :: ModeStays(s, [a] + rest, m) <==> s.core.mode == m && ModeStays(Do(s, a), rest, m)
  {
    StepIsRun(s, a, rest);
    assert ([a] + rest)[1..] == rest;
  }

  lemma LastManualThen(e: Event, tr: seq<Event>, p: int)
    ensures LastManual([e] + tr, p) == LastManual(tr, if e.ManualWrite? then e.v else p)
  {
    assert ([e] + tr)[1..] == tr;
  }

  lemma LosesLater(s: State, a: Action, p: int)
    requires Enabled(s, a) && s.core.mode == MANUAL
    requires Loses(Do(s, a), if EventOf(s, a).ManualWrite? then EventOf(s, a).v else p)
    ensures Loses(s, p)
  {
    var e, s' := EventOf(s, a), Do(s, a);
    var q := if e.ManualWrite? then e.v else p;
    var rest :| Runs(s', rest) && ModeStays(s', rest, MANUAL) &&
      After(s', rest).core.period != LastManual(Trace(s', rest), q);
    StepThen(s, a, rest);
    LastManualThen(e, Trace(s', rest), p);
    assert Runs(s, [a] + rest);
  }

  lemma LosesNow(s: State, p: int)
    requires s.core.mode == MANUAL && s.core.period != p
    ensures Loses(s, p)
  {
    assert Runs(s, []) && ModeStays(s, [], MANUAL);
  }

  /** Losing it after one more step is losing it. */
  lemma LosesAfter(s: State, a: Action)
    requires Enabled(s, a) && s.core.mode == MANUAL && !EventOf(s, a).AutoWrite?
    requires Loses(Do(s, a), Do(s, a).core.period)
    ensures Loses(s, s.core.period)
  {
    StepEffect(s, a);
    LosesLater(s, a, s.core.period);
  }

  /** A pass that has not read the sensor, or read another period, overwrites the one that
      is there without anybody's help. */
  lemma LostToSensor(s: State)
    requires Inv(s) && s.core.mode == MANUAL && InFlight(s) && s.reg != StoresAuto(s.core.period)
    ensures Loses(s, s.core.period)
    decreases s.reg.Senses?, !s.regLock.Free?
  {
    if s.reg.Senses? {
      var a := RegulatorStep(if s.core.period == 50 then 1872 else 0);
      StepInv(s, a);
      LostToSensor(Do(s, a));
      LosesAfter(s, a);
    } else if !s.regLock.Free? {
      StepInv(s, Client(s.regLock.t));
      LostToSensor(Do(s, Client(s.regLock.t)));
      LosesAfter(s, Client(s.regLock.t));
    } else {
      LosesNow(Do(s, RegulatorStep(0)), s.core.period);
      LosesLater(s, RegulatorStep(0), s.core.period);
    }
  }

  /** Steps until the client is idle. */
  function ToIdle(pc: Pc): nat {
    match pc
    case Idle => 0
    case AwaitsApp(_) => 5
    case Reads(_) => 4
    case SetsMode(_) => 1
    case Adjusts(_) => 2
    case LeavesApp => 1
    case _ => 3
  }

  /** A pass about to write, and a client that is idle or can become so: a run in Manual
      mode that overwrites a manual value of 7 ms. */
  lemma LostManualValue(s: State, t: nat)
    requires Inv(s) && s.core.mode == MANUAL && s.reg.StoresAuto? && Frees(s, t)
    ensures Loses(s, s.core.period)
    decreases ToIdle(s.clients[t]), !s.regLock.Free?
  {
    if !s.regLock.Free? || !s.clients[t].Idle? {
      var a := Client(if s.regLock.Free? then t else s.regLock.t);
      StepInv(s, a);
      LostManualValue(Do(s, a), t);
      LosesAfter(s, a);
    } else {
      var s1 := Do(s, Begin(t, DirectPeriod(7)));
      var s2 := Do(s1, Client(t));
      var s3 := Do(s2, Client(t));
      LosesNow(Do(s3, RegulatorStep(0)), 7);
      LosesLater(s3, RegulatorStep(0), 7);
      LosesAfter(s2, Client(t));
      LosesAfter(s1, Client(t));
      LosesAfter(s, Begin(t, DirectPeriod(7)));
    }
  }

  /** While Auto, nothing but passes changes the period; once one has written, the period
      is one of the four automatic ones. */
  lemma {:induction false} AutoPeriodSettles(s: State, acts: seq<Action>)
    requires Inv(s) && Runs(s, acts) && ModeStays(s, acts, AUTO)
    ensures var p := After(s, acts).core.period;
            if AutoWrites(Trace(s, acts)) == 0 then p == s.core.period else IsAutoPeriod(p)
    decreases acts
  {
    if acts != [] {
      StepEffect(s, acts[0]);
      var s' := Do(s, acts[0]);
      StepInv(s, acts[0]);
      AutoPeriodSettles(s', acts[1..]);
      assert Trace(s, acts)[1..] == Trace(s', acts[1..]);
    }
  }
}
