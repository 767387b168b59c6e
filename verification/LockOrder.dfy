/**
  The mutexes of the daemon and of the kernel module. Every call path acquires them in
  one rank order; therefore no reachable state of any number of threads is a deadlock.
  Every access to shared data is made under the lock of that data; therefore no two
  threads are ever at an access to the same data.
 */
module LockOrder {
  import opened Seqs

  datatype Lock =
    | BtnList | CbMutex | Button(i: nat)   // daemon entry points
    | AnimLock | AppLock
    | Led
    | DaemonSysfs
    | KernelSysfs
    | RegulatorLock | TempLock

  function Rank(l: Lock): nat {
    match l
    case BtnList => 1
    case CbMutex => 1
    case Button(_) => 1
    case AnimLock => 2
    case AppLock => 2
    case Led => 3
    case DaemonSysfs => 3
    case KernelSysfs => 4
    case RegulatorLock => 5
    case TempLock => 5
  }

  const TOP_RANK := 5

  // ---- Call paths, as nested critical sections ----

  datatype Data =
    | ButtonList | ButtonState(i: nat) | IpcTable
    | PulseCount | LedPin
    | Decision            // a mode or period that was read and is not yet written back
    | DaemonFile          // the daemon's stream on a sysfs file
    | KernelTable         // device_cbs
    | ModeAndPeriod | Thermometer

  function Guard(d: Data): Lock {
    match d
    case ButtonList => BtnList
    case ButtonState(i) => Button(i)
    case IpcTable => CbMutex
    case PulseCount => AnimLock
    case LedPin => Led
    case Decision => AppLock
    case DaemonFile => DaemonSysfs
    case KernelTable => KernelSysfs
    case ModeAndPeriod => RegulatorLock
    case Thermometer => TempLock
  }

  datatype Path =
    | Access(data: Data)
    | Then(first: Path, second: Path)
    | Under(lock: Lock, body: Path)

  /** Every section nested in another has a strictly higher rank, all above `floor`. */
  predicate Ranked(p: Path, floor: nat) {
    match p
    case Access(_) => true
    case Then(a, b) => Ranked(a, floor) && Ranked(b, floor)
    case Under(l, body) => floor < Rank(l) && Ranked(body, Rank(l))
  }

  /** Every access is made under its lock, given the locks in hand. */
  predicate Guarded(p: Path, held: set<Lock>) {
    match p
    case Access(d) => Guard(d) in held
    case Then(a, b) => Guarded(a, held) && Guarded(b, held)
    case Under(l, body) => Guarded(body, held + {l})
  }

  datatype Instr = Acquire(l: Lock) | Release(l: Lock) | Use(d: Data)

  function Code(p: Path): seq<Instr> {
    match p
    case Access(d) => [Use(d)]
    case Then(a, b) => Code(a) + Code(b)
    case Under(l, body) => [Acquire(l)] + Code(body) + [Release(l)]
  }

  // The kernel side of a sysfs access, and the daemon side around it.
  const UseRegulator := Under(RegulatorLock, Access(ModeAndPeriod))
  const UseSensor := Under(TempLock, Access(Thermometer))
  const KernelRegulator := Under(KernelSysfs, Then(Access(KernelTable), UseRegulator))
  const KernelTemp := Under(KernelSysfs, Then(Access(KernelTable), UseSensor))
  const KernelNoCall := Under(KernelSysfs, Access(KernelTable))
  const SysfsRegulator := Under(DaemonSysfs, Then(Access(DaemonFile), KernelRegulator))
  const SysfsTemp := Under(DaemonSysfs, Then(Access(DaemonFile), KernelTemp))

  // increase_period, mode_toggle; a decrease whose guard fails makes only the first access.
  const ReadWrite := Under(AppLock, Then(SysfsRegulator, Then(Access(Decision), SysfsRegulator)))
  const ReadOnly := Under(AppLock, Then(SysfsRegulator, Access(Decision)))
  const Pulse := Under(AnimLock, Access(PulseCount))
  const SwitchLed := Under(Led, Access(LedPin))

  datatype Call =
    | PressPeriod(button: nat, writes: bool)  // trigger_pulse, then increase or decrease
    | PressMode(button: nat)
    | IgnoredEdge(button: nat)                // not '1', or no callback
    | IpcSet                                  // CMD_SET_MODE, CMD_SET_PERIOD
    | IpcRefused                              // a mode the kernel's parser refuses
    | IpcInvalid                              // a parsed mode other than 0 and 1
    | IpcStep(writes: bool)                   // CMD_INC_PERIOD, CMD_DEC_PERIOD
    | IpcUnknown
    | OledRefresh
    | AnimationTurn(shows: bool)              // a critical section of the worker, and the pulse it shows
    | ToggleLed                               // LED_toggle, LED_on, LED_off from elsewhere
    | RegulatorIdle                           // a pass that reads Manual
    | RegulatorAuto
    | DirectSysfs                             // another process on mode or period_*
    | DirectTemperature
    | ConfigureButton(button: nat)            // BTN_set_callback, BTN_deinit
    | RegisterButton
    | ConfigureIpc
    | InitSysfs                               // temp_regulator_sysfs_init, a direct invalid mode
    | InitTemp                                // temp_init, temp_exit

  function PathOf(c: Call): Path {
    match c
    case PressPeriod(i, w) =>
      Under(Button(i), Then(Access(ButtonState(i)), Then(Pulse, if w then ReadWrite else ReadOnly)))
    case PressMode(i) => Under(Button(i), Then(Access(ButtonState(i)), ReadWrite))
    case IgnoredEdge(i) => Under(Button(i), Access(ButtonState(i)))
    case IpcSet => Under(CbMutex, Then(Access(IpcTable), SysfsRegulator))
    case IpcRefused => Under(CbMutex, Then(Access(IpcTable), Under(DaemonSysfs, Access(DaemonFile))))
    case IpcInvalid =>
      Under(CbMutex, Then(Access(IpcTable), Under(DaemonSysfs, Then(Access(DaemonFile), KernelNoCall))))
    case IpcStep(w) => Under(CbMutex, Then(Access(IpcTable), if w then ReadWrite else ReadOnly))
    case IpcUnknown => Under(CbMutex, Access(IpcTable))
    case OledRefresh => Then(SysfsRegulator, Then(SysfsTemp, SysfsRegulator))
    case AnimationTurn(shows) => if shows then Then(Pulse, Then(SwitchLed, SwitchLed)) else Pulse
    case ToggleLed => SwitchLed
    case RegulatorIdle => UseRegulator
    case RegulatorAuto => Then(UseRegulator, Then(UseSensor, UseRegulator))
    case DirectSysfs => KernelRegulator
    case DirectTemperature => KernelTemp
    case ConfigureButton(i) => Under(Button(i), Access(ButtonState(i)))
    case RegisterButton => Under(BtnList, Access(ButtonList))
    case ConfigureIpc => Under(CbMutex, Access(IpcTable))
    case InitSysfs => KernelNoCall
    case InitTemp => UseSensor
  }

  lemma AccessesAreRanked()
    ensures Ranked(UseRegulator, 0) && Ranked(UseSensor, 0) && Ranked(KernelNoCall, 3) && Ranked(KernelNoCall, 0)
    ensures Ranked(KernelRegulator, 0) && Ranked(KernelTemp, 0) && Ranked(SysfsRegulator, 1) && Ranked(SysfsTemp, 1)
    ensures Ranked(SysfsRegulator, 0) && Ranked(SysfsTemp, 0)
    ensures Ranked(ReadWrite, 1) && Ranked(ReadOnly, 1) && Ranked(Pulse, 1) && Ranked(Pulse, 0)
  {
    assert Ranked(UseRegulator, 4) && Ranked(UseSensor, 4);
    assert Ranked(KernelRegulator, 3) && Ranked(KernelTemp, 3);
    assert Ranked(SysfsRegulator, 2);
  }

  lemma EveryPathIsRanked(c: Call)
    ensures Ranked(PathOf(c), 0)
  {
    AccessesAreRanked();
    match c
    case IpcRefused =>
      assert Ranked(Under(DaemonSysfs, Access(DaemonFile)), 1);
    case IpcInvalid =>
      assert Ranked(Under(DaemonSysfs, Then(Access(DaemonFile), KernelNoCall)), 1);
    case _ =>
  }

  lemma {:induction false} GuardedUnderMore(p: Path, held: set<Lock>, more: set<Lock>)
    requires Guarded(p, held) && held <= more
    ensures Guarded(p, more)
  {
    match p
    case Access(_) =>
    case Then(a, b) =>
      GuardedUnderMore(a, held, more);
      GuardedUnderMore(b, held, more);
    case Under(l, body) =>
      GuardedUnderMore(body, held + {l}, more + {l});
  }

  /** A section that starts with an access to the data its lock guards. */
  lemma EntryIsGuarded(l: Lock, d: Data, rest: Path)
    requires Guard(d) == l && Guarded(rest, {})
    ensures Guarded(Under(l, Then(Access(d), rest)), {}) && Guarded(Under(l, Access(d)), {})
  {
    GuardedUnderMore(rest, {}, {} + {l});
    assert Guarded(Access(d), {} + {l});
    assert Guarded(Then(Access(d), rest), {} + {l});
  }

  lemma SysfsIsGuarded()
    ensures Guarded(KernelRegulator, {}) && Guarded(KernelTemp, {}) && Guarded(KernelNoCall, {})
    ensures Guarded(SysfsRegulator, {}) && Guarded(SysfsTemp, {})
    ensures Guarded(ReadWrite, {}) && Guarded(ReadOnly, {})
  {
    EntryIsGuarded(KernelSysfs, KernelTable, UseRegulator);
    EntryIsGuarded(KernelSysfs, KernelTable, UseSensor);
    EntryIsGuarded(DaemonSysfs, DaemonFile, KernelRegulator);
    EntryIsGuarded(DaemonSysfs, DaemonFile, KernelTemp);
    GuardedUnderMore(SysfsRegulator, {}, {} + {AppLock});
    assert Guarded(Access(Decision), {} + {AppLock});
    assert Guarded(Then(Access(Decision), SysfsRegulator), {} + {AppLock});
  }

  lemma EveryAccessIsGuarded(c: Call)
    ensures Guarded(PathOf(c), {})
  {
    SysfsIsGuarded();
    match c
    case PressPeriod(i, w) => EntryIsGuarded(Button(i), ButtonState(i), Then(Pulse, if w then ReadWrite else ReadOnly));
    case PressMode(i) => EntryIsGuarded(Button(i), ButtonState(i), ReadWrite);
    case IpcSet => EntryIsGuarded(CbMutex, IpcTable, SysfsRegulator);
    case IpcStep(w) => EntryIsGuarded(CbMutex, IpcTable, if w then ReadWrite else ReadOnly);
    case IpcRefused =>
      EntryIsGuarded(DaemonSysfs, DaemonFile, KernelNoCall);
      EntryIsGuarded(CbMutex, IpcTable, Under(DaemonSysfs, Access(DaemonFile)));
    case IpcInvalid =>
      EntryIsGuarded(DaemonSysfs, DaemonFile, KernelNoCall);
      EntryIsGuarded(CbMutex, IpcTable, Under(DaemonSysfs, Then(Access(DaemonFile), KernelNoCall)));
    case OledRefresh =>
      assert Guarded(Then(SysfsTemp, SysfsRegulator), {});
    case _ =>
  }

  // ---- What each call uses ----

  /** The uses of data in a path, and where it enters and leaves app_lock. */
  function Trail(p: Path): seq<Instr> {
    match p
    case Access(d) => [Use(d)]
    case Then(a, b) => Trail(a) + Trail(b)
    case Under(l, body) => if l == AppLock then [Acquire(l)] + Trail(body) + [Release(l)] else Trail(body)
  }

  predicate InTrail(i: Instr) { i.Use? || i.l == AppLock }

  function Filtered(code: seq<Instr>): seq<Instr> {
    if code == [] then [] else (if InTrail(code[0]) then [code[0]] else []) + Filtered(code[1..])
  }

  lemma {:induction false} FilteredConcat(a: seq<Instr>, b: seq<Instr>)
    ensures Filtered(a + b) == Filtered(a) + Filtered(b)
    decreases a
  {
    if a == [] {
      assert a + b == b;
    } else {
      var head := if InTrail(a[0]) then [a[0]] else [];
      assert (a + b)[1..] == a[1..] + b;
      FilteredConcat(a[1..], b);
      assert head + (Filtered(a[1..]) + Filtered(b)) == (head + Filtered(a[1..])) + Filtered(b);
    }
  }

  lemma FilteredOne(i: Instr)
    ensures Filtered([i]) == if InTrail(i) then [i] else []
  {
    assert [i][1..] == [];
  }

  lemma {:induction false} TrailOfCode(p: Path)
    ensures Filtered(Code(p)) == Trail(p)
  {
    match p
    case Access(d) => FilteredOne(Use(d));
    case Then(a, b) =>
      TrailOfCode(a);
      TrailOfCode(b);
      FilteredConcat(Code(a), Code(b));
    case Under(l, body) =>
      TrailOfCode(body);
      FilteredOne(Acquire(l));
      FilteredOne(Release(l));
      FilteredConcat([Acquire(l)] + Code(body), [Release(l)]);
      FilteredConcat([Acquire(l)], Code(body));
  }

  // A daemon access to the regulator, and an update under app_lock.
  const REGULATOR_ACCESS := [Use(DaemonFile), Use(KernelTable), Use(ModeAndPeriod)]

  function Update(writes: bool): seq<Instr> {
    [Acquire(AppLock)] + REGULATOR_ACCESS + [Use(Decision)]
    + (if writes then REGULATOR_ACCESS else []) + [Release(AppLock)]
  }

  function UsesOf(c: Call): seq<Instr> {
    match c
    case PressPeriod(i, w) => [Use(ButtonState(i)), Use(PulseCount)] + Update(w)
    case PressMode(i) => [Use(ButtonState(i))] + Update(true)
    case IgnoredEdge(i) => [Use(ButtonState(i))]
    case IpcSet => [Use(IpcTable)] + REGULATOR_ACCESS
    case IpcRefused => [Use(IpcTable), Use(DaemonFile)]
    case IpcInvalid => [Use(IpcTable), Use(DaemonFile), Use(KernelTable)]
    case IpcStep(w) => [Use(IpcTable)] + Update(w)
    case IpcUnknown => [Use(IpcTable)]
    case OledRefresh =>
      REGULATOR_ACCESS + [Use(DaemonFile), Use(KernelTable), Use(Thermometer)] + REGULATOR_ACCESS
    case AnimationTurn(shows) => if shows then [Use(PulseCount), Use(LedPin), Use(LedPin)] else [Use(PulseCount)]
    case ToggleLed => [Use(LedPin)]
    case RegulatorIdle => [Use(ModeAndPeriod)]
    case RegulatorAuto => [Use(ModeAndPeriod), Use(Thermometer), Use(ModeAndPeriod)]
    case DirectSysfs => [Use(KernelTable), Use(ModeAndPeriod)]
    case DirectTemperature => [Use(KernelTable), Use(Thermometer)]
    case ConfigureButton(i) => [Use(ButtonState(i))]
    case RegisterButton => [Use(ButtonList)]
    case ConfigureIpc => [Use(IpcTable)]
    case InitSysfs => [Use(KernelTable)]
    case InitTemp => [Use(Thermometer)]
  }

  lemma EntryTrail(l: Lock, d: Data, rest: Path)
    requires l != AppLock
    ensures Trail(Under(l, Then(Access(d), rest))) == [Use(d)] + Trail(rest)
    ensures Trail(Under(l, Access(d))) == [Use(d)]
  {
    assert Trail(Then(Access(d), rest)) == [Use(d)] + Trail(rest);
  }

  lemma PulseTrail(i: nat, rest: Path)
    ensures Trail(Under(Button(i), Then(Access(ButtonState(i)), Then(Pulse, rest))))
            == [Use(ButtonState(i)), Use(PulseCount)] + Trail(rest)
  {
    assert Trail(Pulse) == [Use(PulseCount)];
    assert Trail(Then(Pulse, rest)) == [Use(PulseCount)] + Trail(rest);
    EntryTrail(Button(i), ButtonState(i), Then(Pulse, rest));
    assert [Use(ButtonState(i))] + ([Use(PulseCount)] + Trail(rest))
           == [Use(ButtonState(i)), Use(PulseCount)] + Trail(rest);
  }

  lemma ButtonTrail(i: nat, w: bool)
    ensures Trail(PathOf(PressPeriod(i, w))) == UsesOf(PressPeriod(i, w))
    ensures Trail(PathOf(PressMode(i))) == UsesOf(PressMode(i))
  {
    SysfsTrail();
    PulseTrail(i, if w then ReadWrite else ReadOnly);
    EntryTrail(Button(i), ButtonState(i), ReadWrite);
  }

  lemma IpcTrail(c: Call)
    requires c.IpcSet? || c.IpcStep? || c.IpcRefused? || c.IpcInvalid?
    ensures Trail(PathOf(c)) == UsesOf(c)
  {
    SysfsTrail();
    EntryTrail(DaemonSysfs, DaemonFile, KernelNoCall);
    var inner := match c
      case IpcStep(w) => if w then ReadWrite else ReadOnly
      case IpcRefused => Under(DaemonSysfs, Access(DaemonFile))
      case IpcInvalid => Under(DaemonSysfs, Then(Access(DaemonFile), KernelNoCall))
      case _ => SysfsRegulator;
    EntryTrail(CbMutex, IpcTable, inner);
  }

  lemma OledTrail()
    ensures Trail(PathOf(OledRefresh)) == UsesOf(OledRefresh)
  {
    SysfsTrail();
    var temp := [Use(DaemonFile), Use(KernelTable), Use(Thermometer)];
    assert Trail(Then(SysfsTemp, SysfsRegulator)) == temp + REGULATOR_ACCESS;
    assert REGULATOR_ACCESS + (temp + REGULATOR_ACCESS) == REGULATOR_ACCESS + temp + REGULATOR_ACCESS;
  }

  lemma OtherTrail(c: Call)
    requires !c.PressPeriod? && !c.PressMode? && !c.IpcSet? && !c.IpcStep? && !c.IpcRefused? && !c.IpcInvalid?
    requires !c.OledRefresh?
    ensures Trail(PathOf(c)) == UsesOf(c)
  {
    SysfsTrail();
    match c
    case AnimationTurn(_) =>
      assert Trail(Then(SwitchLed, SwitchLed)) == [Use(LedPin), Use(LedPin)];
    case RegulatorAuto =>
      assert Trail(Then(UseSensor, UseRegulator)) == [Use(Thermometer), Use(ModeAndPeriod)];
    case _ =>
  }

  /** What the code of each call uses, in order; an update stays in one app_lock section. */
  lemma CallsUse(c: Call)
    ensures Filtered(Code(PathOf(c))) == UsesOf(c)
  {
    TrailOfCode(PathOf(c));
    match c
    case PressPeriod(i, w) => ButtonTrail(i, w);
    case PressMode(i) => ButtonTrail(i, true);
    case OledRefresh => OledTrail();
    case IpcSet => IpcTrail(c);
    case IpcStep(_) => IpcTrail(c);
    case IpcRefused => IpcTrail(c);
    case IpcInvalid => IpcTrail(c);
    case _ => OtherTrail(c);
  }

  lemma SysfsTrail()
    ensures Trail(KernelRegulator) == [Use(KernelTable), Use(ModeAndPeriod)]
    ensures Trail(KernelTemp) == [Use(KernelTable), Use(Thermometer)]
    ensures Trail(SysfsRegulator) == REGULATOR_ACCESS
    ensures Trail(SysfsTemp) == [Use(DaemonFile), Use(KernelTable), Use(Thermometer)]
    ensures Trail(ReadWrite) == Update(true) && Trail(ReadOnly) == Update(false)
  {
    assert Trail(UseRegulator) == [Use(ModeAndPeriod)] && Trail(UseSensor) == [Use(Thermometer)];
    assert Trail(Then(Access(KernelTable), UseRegulator)) == [Use(KernelTable), Use(ModeAndPeriod)];
    assert Trail(Then(Access(KernelTable), UseSensor)) == [Use(KernelTable), Use(Thermometer)];
    assert Trail(Then(Access(DaemonFile), KernelRegulator)) == REGULATOR_ACCESS;
    assert Trail(Then(Access(DaemonFile), KernelTemp)) == [Use(DaemonFile), Use(KernelTable), Use(Thermometer)];
    assert Trail(Then(Access(Decision), SysfsRegulator)) == [Use(Decision)] + REGULATOR_ACCESS;
    assert Trail(Then(SysfsRegulator, Then(Access(Decision), SysfsRegulator)))
           == REGULATOR_ACCESS + ([Use(Decision)] + REGULATOR_ACCESS);
    assert Trail(Then(SysfsRegulator, Access(Decision))) == REGULATOR_ACCESS + [Use(Decision)];
  }

  // ---- Threads ----

  datatype Thread = Thread(todo: seq<Instr>, held: set<Lock>)

  type Threads = seq<Thread>

  datatype Action = Start(i: nat, call: Call) | Step(i: nat)

  /** A mutex is free when no thread, not even the caller, holds it. */
  predicate IsFree(s: Threads, l: Lock) { forall j :: 0 <= j < |s| ==> l !in s[j].held }

  predicate CanStep(s: Threads, i: nat) {
    i < |s| && s[i].todo != [] && (s[i].todo[0].Acquire? ==> IsFree(s, s[i].todo[0].l))
  }

  predicate Enabled(s: Threads, a: Action) {
    match a
    case Start(i, _) => i < |s| && s[i].todo == []
    case Step(i) => CanStep(s, i)
  }

  function Do(s: Threads, a: Action): Threads
    requires Enabled(s, a)
  {
    match a
    case Start(i, c) => s[i := Thread(Code(PathOf(c)), s[i].held)]
    case Step(i) =>
      var rest := s[i].todo[1..];
      match s[i].todo[0]
      case Acquire(l) => s[i := Thread(rest, s[i].held + {l})]
      case Release(l) => s[i := Thread(rest, s[i].held - {l})]
      case Use(_) => s[i := Thread(rest, s[i].held)]
  }

  predicate Runs(s: Threads, acts: seq<Action>)
    decreases acts
  {
    acts == [] || (Enabled(s, acts[0]) && Runs(Do(s, acts[0]), acts[1..]))
  }

  function After(s: Threads, acts: seq<Action>): Threads
    requires Runs(s, acts)
    decreases acts
  {
    if acts == [] then s else After(Do(s, acts[0]), acts[1..])
  }

  function Initial(n: nat): Threads { seq(n, _ => Thread([], {})) }

  // ---- The discipline, on running code ----

  /** What remains acquires upwards, releases what it holds, uses data under its lock, and
      ends holding nothing. */
  predicate Ordered(todo: seq<Instr>, held: set<Lock>)
    decreases todo
  {
    if todo == [] then held == {}
    else match todo[0]
      case Acquire(l) => (forall h :: h in held ==> Rank(h) < Rank(l)) && Ordered(todo[1..], held + {l})
      case Release(l) => l in held && Ordered(todo[1..], held - {l})
      case Use(d) => Guard(d) in held && Ordered(todo[1..], held)
  }

  /** A ranked path, run with locks of rank at most `floor` in hand, keeps the discipline
      and hands back exactly those locks. */
  lemma {:induction false} RankedIsOrdered(p: Path, floor: nat, held: set<Lock>, rest: seq<Instr>)
    requires Ranked(p, floor) && Guarded(p, held) && Ordered(rest, held)
    requires forall h :: h in held ==> Rank(h) <= floor
    ensures Ordered(Code(p) + rest, held)
    decreases p
  {
    match p
    case Access(d) =>
      assert ([Use(d)] + rest)[1..] == rest;
    case Then(a, b) =>
      RankedIsOrdered(b, floor, held, rest);
      RankedIsOrdered(a, floor, held, Code(b) + rest);
      ThenCode(a, b, rest);
    case Under(l, body) =>
      ReleaseIsOrdered(l, held, rest);
      RankedIsOrdered(body, Rank(l), held + {l}, [Release(l)] + rest);
      AcquireIsOrdered(l, held, Code(body) + ([Release(l)] + rest));
      UnderCode(l, body, rest);
  }

  lemma AcquireIsOrdered(l: Lock, held: set<Lock>, rest: seq<Instr>)
    requires Ordered(rest, held + {l}) && forall h :: h in held ==> Rank(h) < Rank(l)
    ensures Ordered([Acquire(l)] + rest, held)
  {
    assert ([Acquire(l)] + rest)[1..] == rest;
  }

  lemma ReleaseIsOrdered(l: Lock, held: set<Lock>, rest: seq<Instr>)
    requires Ordered(rest, held) && forall h :: h in held ==> Rank(h) < Rank(l)
    ensures Ordered([Release(l)] + rest, held + {l})
  {
    assert l !in held;
    assert ([Release(l)] + rest)[1..] == rest && held + {l} - {l} == held;
  }

  lemma ThenCode(a: Path, b: Path, rest: seq<Instr>)
    ensures Code(Then(a, b)) + rest == Code(a) + (Code(b) + rest)
  {}

  lemma UnderCode(l: Lock, body: Path, rest: seq<Instr>)
    ensures Code(Under(l, body)) + rest == [Acquire(l)] + (Code(body) + ([Release(l)] + rest))
  {}

  predicate Inv(s: Threads) {
    && (forall i :: 0 <= i < |s| ==> Ordered(s[i].todo, s[i].held))
    && (forall i, j :: 0 <= i < j < |s| ==> s[i].held !! s[j].held)
  }

  lemma StepInv(s: Threads, a: Action)
    requires Inv(s) && Enabled(s, a)
    ensures Inv(Do(s, a))
  {
    match a
    case Start(i, c) =>
      EveryPathIsRanked(c);
      EveryAccessIsGuarded(c);
      RankedIsOrdered(PathOf(c), 0, {}, []);
      assert Code(PathOf(c)) + [] == Code(PathOf(c));
    case Step(i) =>
  }

  /** Mutual exclusion and the lock discipline hold in every reachable state. */
  lemma {:induction false} RunInv(s: Threads, acts: seq<Action>)
    requires Inv(s) && Runs(s, acts)
    ensures Inv(After(s, acts))
    decreases acts
  {
    if acts != [] {
      StepInv(s, acts[0]);
      RunInv(Do(s, acts[0]), acts[1..]);
    }
  }

  predicate IsAt(s: Threads, i: nat, d: Data) { i < |s| && s[i].todo != [] && s[i].todo[0] == Use(d) }

  /** No data races: in every reachable state, at most one thread is at an access to any
      one piece of data. */
  lemma NoRace(n: nat, acts: seq<Action>, i: nat, j: nat, d: Data)
    requires Runs(Initial(n), acts)
    requires IsAt(After(Initial(n), acts), i, d) && IsAt(After(Initial(n), acts), j, d)
    ensures i == j
  {
    RunInv(Initial(n), acts);
    var s := After(Initial(n), acts);
    assert Ordered(s[i].todo, s[i].held) && Ordered(s[j].todo, s[j].held);
    assert Guard(d) in s[i].held && Guard(d) in s[j].held;
  }

  // ---- Each call runs its path ----

  /** The instructions thread i executes, and the code of the calls it starts. */
  function Executed(s: Threads, acts: seq<Action>, i: nat): seq<Instr>
    requires Runs(s, acts)
    decreases acts
  {
    if acts == [] then []
    else (if acts[0] == Step(i) then [s[i].todo[0]] else []) + Executed(Do(s, acts[0]), acts[1..], i)
  }

  function Started(acts: seq<Action>, i: nat): seq<Instr> {
    if acts == [] then []
    else (if acts[0].Start? && acts[0].i == i then Code(PathOf(acts[0].call)) else []) + Started(acts[1..], i)
  }

  lemma StepExecutes(s: Threads, a: Action, i: nat)
    requires i < |s| && Enabled(s, a)
    ensures |Do(s, a)| == |s|
    ensures s[i].todo + (if a.Start? && a.i == i then Code(PathOf(a.call)) else [])
            == (if a == Step(i) then [s[i].todo[0]] else []) + Do(s, a)[i].todo
  {}

  /** A thread executes exactly the code of the calls it starts, in that order. */
  lemma {:induction false} CallsRunTheirPaths(s: Threads, acts: seq<Action>, i: nat)
    requires i < |s| && Runs(s, acts)
    ensures |After(s, acts)| == |s|
    ensures s[i].todo + Started(acts, i) == Executed(s, acts, i) + After(s, acts)[i].todo
    decreases acts
  {
    if acts == [] {
      assert s[i].todo + [] == [] + s[i].todo;
    } else {
      var a, s' := acts[0], Do(s, acts[0]);
      StepExecutes(s, a, i);
      CallsRunTheirPaths(s', acts[1..], i);
      var now := if a.Start? && a.i == i then Code(PathOf(a.call)) else [];
      var done := if a == Step(i) then [s[i].todo[0]] else [];
      InTurn(s[i].todo, now, Started(acts[1..], i),
             done, s'[i].todo, Executed(s', acts[1..], i), After(s, acts)[i].todo);
    }
  }

  /** Thread i waits for a lock that thread j holds. */
  predicate WaitsFor(s: Threads, i: nat, j: nat) {
    i < |s| && j < |s| && s[i].todo != [] && s[i].todo[0].Acquire? && s[i].todo[0].l in s[j].held
  }

  lemma WaitingClimbs(s: Threads, i: nat, j: nat, k: nat)
    requires Inv(s) && WaitsFor(s, i, j) && WaitsFor(s, j, k)
    ensures Rank(s[i].todo[0].l) < Rank(s[j].todo[0].l) <= TOP_RANK
  {
    assert Ordered(s[j].todo, s[j].held);
  }

  /** Each thread of the chain waits for the next one. */
  predicate WaitChain(s: Threads, c: seq<nat>) {
    forall x, y :: 0 <= x && y == x + 1 < |c| ==> WaitsFor(s, c[x], c[y])
  }

  /** Along a chain the awaited rank rises by at least one per thread. */
  lemma {:induction false} ChainClimbs(s: Threads, c: seq<nat>, last: nat)
    requires Inv(s) && c != [] && WaitChain(s, c) && WaitsFor(s, c[|c| - 1], last)
    ensures WaitsFor(s, c[0], if |c| == 1 then last else c[1])
    ensures Rank(s[c[0]].todo[0].l) + |c| - 1 <= Rank(s[c[|c| - 1]].todo[0].l)
  {
    if |c| > 1 {
      assert WaitChain(s, c[1..]);
      ChainClimbs(s, c[1..], last);
      WaitingClimbs(s, c[0], c[1], if |c| == 2 then last else c[2]);
    }
  }

  /** Nobody waits for himself through others: no closed chain of waiting threads, of any
      length; and no chain is longer than there are ranks. */
  lemma NoWaitCycle(s: Threads, c: seq<nat>)
    requires Inv(s) && c != [] && WaitChain(s, c)
    ensures !WaitsFor(s, c[|c| - 1], c[0])
    ensures |c| <= TOP_RANK + 1
  {
    if WaitsFor(s, c[|c| - 1], c[0]) {
      ChainClimbs(s, c, c[0]);
      WaitingClimbs(s, c[|c| - 1], c[0], if |c| == 1 then c[0] else c[1]);
    }
    if |c| > 1 {
      assert WaitChain(s, c[..|c| - 1]) && WaitsFor(s, c[|c| - 2], c[|c| - 1]);
      ChainClimbs(s, c[..|c| - 1], c[|c| - 1]);
    }
  }

  /** From every unfinished thread, the chain of holders it waits for ends at one that can step. */
  lemma {:induction false} SomeoneMoves(s: Threads, i: nat) returns (c: seq<nat>)
    requires Inv(s) && i < |s| && s[i].todo != []
    ensures c != [] && c[0] == i && WaitChain(s, c) && CanStep(s, c[|c| - 1])
    decreases if s[i].todo[0].Acquire? then TOP_RANK - Rank(s[i].todo[0].l) else 0
  {
    if CanStep(s, i) {
      c := [i];
    } else {
      var h :| 0 <= h < |s| && s[i].todo[0].l in s[h].held;
      assert WaitsFor(s, i, h) && Ordered(s[h].todo, s[h].held);
      if CanStep(s, h) {
        c := [i, h];
      } else {
        var k :| 0 <= k < |s| && s[h].todo[0].l in s[k].held;
        WaitingClimbs(s, i, h, k);
        var more := SomeoneMoves(s, h);
        c := [i] + more;
        ChainOn(s, i, more);
      }
    }
  }

  lemma ChainOn(s: Threads, i: nat, c: seq<nat>)
    requires c != [] && WaitsFor(s, i, c[0]) && WaitChain(s, c)
    ensures WaitChain(s, [i] + c)
  {
    forall x, y | 0 <= x && y == x + 1 < |[i] + c| ensures WaitsFor(s, ([i] + c)[x], ([i] + c)[y]) {
      assert ([i] + c)[y] == c[x];
      assert x > 0 ==> ([i] + c)[x] == c[x - 1];
    }
  }

  predicate Finished(s: Threads) { forall i :: 0 <= i < |s| ==> s[i].todo == [] }

  /** No deadlock: in every reachable state, unless all threads are between calls, some
      thread in the middle of a call can step. */
  lemma NoDeadlock(n: nat, acts: seq<Action>)
    requires Runs(Initial(n), acts)
    ensures var s := After(Initial(n), acts); Finished(s) || exists i :: CanStep(s, i)
  {
    RunInv(Initial(n), acts);
    var s := After(Initial(n), acts);
    if !Finished(s) {
      var i :| 0 <= i < |s| && s[i].todo != [];
      var c := SomeoneMoves(s, i);
    }
  }

  // ---- Every call completes ----

  function Remaining(s: Threads): nat {
    if s == [] then 0 else |s[0].todo| + Remaining(s[1..])
  }

  lemma {:induction false} RemainingUpdate(s: Threads, i: nat, th: Thread)
    requires i < |s|
    ensures Remaining(s[i := th]) == Remaining(s) - |s[i].todo| + |th.todo|
  {
    if i == 0 {
      assert s[i := th][1..] == s[1..];
    } else {
      assert s[i := th][1..] == s[1..][i - 1 := th];
      RemainingUpdate(s[1..], i - 1, th);
    }
  }

  lemma {:induction false} NothingRemains(s: Threads)
    ensures Remaining(s) == 0 <==> Finished(s)
  {
    if s != [] {
      NothingRemains(s[1..]);
      assert forall i :: 1 <= i < |s| ==> s[i] == s[1..][i - 1];
      if Finished(s) {
        assert forall i :: 0 <= i < |s[1..]| ==> s[1..][i] == s[i + 1];
      }
    }
  }

  predicate OnlySteps(acts: seq<Action>) { forall i :: 0 <= i < |acts| ==> acts[i].Step? }

  /** Without new calls, any schedule finishes all calls after exactly the remaining
      number of steps, whatever the order. */
  lemma {:induction false} AllSchedulesFinish(s: Threads, acts: seq<Action>)
    requires Inv(s) && Runs(s, acts) && OnlySteps(acts)
    ensures |acts| + Remaining(After(s, acts)) == Remaining(s)
    ensures |acts| == Remaining(s) <==> Finished(After(s, acts))
    decreases acts
  {
    if acts == [] {
      NothingRemains(s);
    } else {
      var i := acts[0].i;
      RemainingUpdate(s, i, Do(s, acts[0])[i]);
      StepInv(s, acts[0]);
      assert forall k :: 0 <= k < |acts[1..]| ==> acts[1..][k] == acts[k + 1];
      AllSchedulesFinish(Do(s, acts[0]), acts[1..]);
    }
  }

  /** Some schedule does finish all calls: as long as one is under way, a thread can step. */
  lemma {:induction false} CanFinishAll(s: Threads) returns (acts: seq<Action>)
    requires Inv(s)
    ensures Runs(s, acts) && OnlySteps(acts) && Finished(After(s, acts))
    decreases Remaining(s)
  {
    acts := [];
    if !Finished(s) {
      var i :| 0 <= i < |s| && s[i].todo != [];
      var c := SomeoneMoves(s, i);
      var a := Step(c[|c| - 1]);
      StepInv(s, a);
      RemainingUpdate(s, a.i, Do(s, a)[a.i]);
      acts := CanFinishAll(Do(s, a));
      assert ([a] + acts)[1..] == acts;
      assert forall k :: 0 <= k < |acts| ==> ([a] + acts)[k + 1] == acts[k];
      acts := [a] + acts;
    }
  }

  /** A run that starts with this call of thread i and ends with all calls finished, thread
      i having executed exactly the call's code. */
  predicate Completes(s: Threads, i: nat, c: Call, acts: seq<Action>) {
    && acts != [] && acts[0] == Start(i, c) && Runs(s, acts) && Finished(After(s, acts))
    && i < |s| && Executed(s, acts, i) == Code(PathOf(c))
  }

  /** From every reachable state, a thread between calls can make any call and complete it. */
  lemma EveryCallCompletes(s: Threads, i: nat, c: Call)
    requires Inv(s) && i < |s| && s[i].todo == []
    ensures exists acts :: Completes(s, i, c, acts)
  {
    var a := Start(i, c);
    StepInv(s, a);
    var rest := CanFinishAll(Do(s, a));
    assert ([a] + rest)[1..] == rest;
    var acts := [a] + rest;
    CallsRunTheirPaths(s, acts, i);
    NoneStarted(rest, i);
    NothingDue(s[i].todo, Started(acts, i), Executed(s, acts, i), After(s, acts)[i].todo);
    assert Code(PathOf(c)) + [] == Code(PathOf(c));
    assert Completes(s, i, c, acts);
  }

  lemma {:induction false} NoneStarted(acts: seq<Action>, i: nat)
    requires OnlySteps(acts)
    ensures Started(acts, i) == []
  {
    if acts != [] {
      assert forall k :: 0 <= k < |acts[1..]| ==> acts[1..][k] == acts[k + 1];
      NoneStarted(acts[1..], i);
    }
  }
}
