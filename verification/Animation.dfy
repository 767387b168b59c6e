/**
  The pulse queue of the daemon: any number of threads call trigger_pulse, one worker
  takes pulses. pthread_cond_wait is three steps: give up anim_lock and sleep, be
  signalled (or wake for no reason), take the lock again and test again.
 */
module Animation {
  datatype Owner = Free | ByWorker | ByCaller(t: nat)

  datatype WorkerPc =
    | Locking       // before pthread_mutex_lock, or showing the last pulse
    | Testing       // holds the lock, at the while condition
    | Sleeping      // in pthread_cond_wait, lock released
    | Waking        // signalled or spuriously awake, waiting for the lock
    | Taking        // holds the lock, queue not empty
    | Unlocking

  datatype CallerPc = Outside | Entering | Counting | Signalling | Leaving

  /** triggers and taken are histories: completed increments and decrements. */
  datatype State = State(
    worker: WorkerPc, callers: seq<CallerPc>, lock: Owner, pending: int, triggers: nat, taken: nat)

  datatype Action = Worker | Spurious | Caller(t: nat)

  function Initial(n: nat): State {
    State(Locking, seq(n, _ => Outside), Free, 0, 0, 0)
  }

  predicate Enabled(s: State, a: Action) {
    match a
    case Worker =>
      && !s.worker.Sleeping?
      && (s.worker.Locking? || s.worker.Waking? ==> s.lock.Free?)
    case Spurious => s.worker.Sleeping?
    case Caller(t) => t < |s.callers| && (s.callers[t].Entering? ==> s.lock.Free?)
  }

  function Do(s: State, a: Action): State
    requires Enabled(s, a)
  {
    match a
    case Worker => (
      match s.worker
      case Locking => s.(worker := Testing, lock := ByWorker)
      case Testing =>
        if s.pending == 0 then s.(worker := Sleeping, lock := Free) else s.(worker := Taking)
      case Sleeping => s
      case Waking => s.(worker := Testing, lock := ByWorker)
      case Taking => s.(worker := Unlocking, pending := s.pending - 1, taken := s.taken + 1)
      case Unlocking => s.(worker := Locking, lock := Free))
    case Spurious => s.(worker := Waking)
    case Caller(t) => (
      match s.callers[t]
      case Outside => s.(callers := s.callers[t := Entering])
      case Entering => s.(callers := s.callers[t := Counting], lock := ByCaller(t))
      case Counting =>
        s.(callers := s.callers[t := Signalling], pending := s.pending + 1, triggers := s.triggers + 1)
      case Signalling =>
        s.(callers := s.callers[t := Leaving], worker := if s.worker.Sleeping? then Waking else s.worker)
      case Leaving => s.(callers := s.callers[t := Outside], lock := Free))
  }

  predicate Runs(s: State, acts: seq<Action>)
    decreases acts
  {
    acts == [] || (Enabled(s, acts[0]) && Runs(Do(s, acts[0]), acts[1..]))
  }

  function After(s: State, acts: seq<Action>): State
    requires Runs(s, acts)
    decreases acts
  {
    if acts == [] then s else After(Do(s, acts[0]), acts[1..])
  }

  predicate Inside(pc: CallerPc) { pc.Counting? || pc.Signalling? || pc.Leaving? }

  /** The signal for work already counted is the next step of the lock's holder. */
  predicate SignalDue(s: State) {
    s.lock.ByCaller? && s.lock.t < |s.callers| && s.callers[s.lock.t].Signalling?
  }

  predicate Inv(s: State) {
    && s.triggers == s.pending + s.taken
    && s.pending >= 0
    && (s.worker.Taking? ==> s.pending > 0)
    && (s.lock == ByWorker <==> s.worker.Testing? || s.worker.Taking? || s.worker.Unlocking?)
    && (forall t {:trigger s.callers[t]} :: 0 <= t < |s.callers| ==>
          (Inside(s.callers[t]) <==> s.lock == ByCaller(t)))
    && (s.lock.ByCaller? ==> s.lock.t < |s.callers|)
    && (s.worker.Sleeping? && s.pending > 0 ==> SignalDue(s))
  }

  lemma StepInv(s: State, a: Action)
    requires Inv(s) && Enabled(s, a)
    ensures Inv(Do(s, a))
  {
    match a
    case Caller(t) =>
      if s.callers[t].Counting? || s.callers[t].Signalling? || s.callers[t].Leaving? {
        assert Inside(s.callers[t]);
      }
    case _ =>
  }

  /** In every run, pulses triggered are pulses pending plus pulses taken, none is taken
      twice, and the worker never sleeps over work unless its signal is the next step of
      the thread holding the lock; with the lock free, asleep means nothing to do. */
  lemma {:induction false} NoPulseLost(s: State, acts: seq<Action>)
    requires Inv(s) && Runs(s, acts)
    ensures var s' := After(s, acts);
            && Inv(s')
            && s'.triggers == s'.pending + s'.taken && s'.pending >= 0
            && (s'.worker.Sleeping? && s'.lock.Free? ==> s'.pending == 0)
    decreases acts
  {
    if acts != [] {
      StepInv(s, acts[0]);
      NoPulseLost(Do(s, acts[0]), acts[1..]);
    }
  }

  lemma FromStart(n: nat, acts: seq<Action>)
    requires Runs(Initial(n), acts)
    ensures Inv(After(Initial(n), acts))
  {
    NoPulseLost(Initial(n), acts);
  }

  // ---- One pulse per call, one per turn ----

  /** The calls of trigger_pulse that return. */
  function Returns(s: State, acts: seq<Action>): nat
    requires Runs(s, acts)
    decreases acts
  {
    if acts == [] then 0
    else (if acts[0].Caller? && s.callers[acts[0].t].Leaving? then 1 else 0) + Returns(Do(s, acts[0]), acts[1..])
  }

  /** A call that has counted its pulse and not returned. */
  function Counted(s: State): nat {
    if s.lock.ByCaller? && s.lock.t < |s.callers| && (s.callers[s.lock.t].Signalling? || s.callers[s.lock.t].Leaving?)
    then 1 else 0
  }

  /** The worker's turns that end: it leaves its critical section and shows a pulse. */
  function Turns(s: State, acts: seq<Action>): nat
    requires Runs(s, acts)
    decreases acts
  {
    if acts == [] then 0
    else (if acts[0].Worker? && s.worker.Unlocking? then 1 else 0) + Turns(Do(s, acts[0]), acts[1..])
  }

  /** A turn that has taken its pulse and not ended. */
  function Taken(s: State): nat { if s.worker.Unlocking? then 1 else 0 }

  lemma StepCounts(s: State, a: Action)
    requires Inv(s) && Enabled(s, a)
    ensures Do(s, a).triggers + Counted(s)
            == s.triggers + (if a.Caller? && s.callers[a.t].Leaving? then 1 else 0) + Counted(Do(s, a))
    ensures Do(s, a).taken + Taken(s)
            == s.taken + (if a.Worker? && s.worker.Unlocking? then 1 else 0) + Taken(Do(s, a))
  {
    if a.Caller? {
      assert Inside(s.callers[a.t]) <==> s.lock == ByCaller(a.t);
    }
  }

  /** Every call of trigger_pulse adds one pulse, and every turn of the worker shows one: so
      the pulses pending are the calls made less the pulses shown, up to one call and one
      turn under way. */
  lemma {:induction false} OnePulseEach(s: State, acts: seq<Action>)
    requires Inv(s) && Runs(s, acts)
    ensures var s' := After(s, acts);
            && s'.triggers + Counted(s) == s.triggers + Returns(s, acts) + Counted(s')
            && s'.taken + Taken(s) == s.taken + Turns(s, acts) + Taken(s')
            && s'.pending == s.pending + (Returns(s, acts) + Counted(s') - Counted(s))
                             - (Turns(s, acts) + Taken(s') - Taken(s))
    decreases acts
  {
    if acts != [] {
      StepInv(s, acts[0]);
      StepCounts(s, acts[0]);
      NoPulseLost(s, acts);
      OnePulseEach(Do(s, acts[0]), acts[1..]);
    }
  }

  // ---- Every call can return ----

  function ToReturn(pc: CallerPc): nat {
    match pc
    case Outside => 0
    case Entering => 4
    case Counting => 3
    case Signalling => 2
    case Leaving => 1
  }

  /** The steps left to whoever holds the lock. */
  function ToRelease(s: State): nat {
    match s.lock
    case Free => 0
    case ByWorker => if s.worker.Testing? then 3 else if s.worker.Taking? then 2 else 1
    case ByCaller(t) => if t < |s.callers| then ToReturn(s.callers[t]) else 0
  }

  /** A call of trigger_pulse under way can return, without any new call. */
  lemma {:induction false} CanReturn(s: State, t: nat) returns (acts: seq<Action>)
    requires Inv(s) && t < |s.callers|
    ensures Runs(s, acts) && t < |After(s, acts).callers| && After(s, acts).callers[t].Outside?
    decreases ToReturn(s.callers[t]), ToRelease(s)
  {
    acts := [];
    if !s.callers[t].Outside? {
      var a := match s.lock case Free => Caller(t) case ByWorker => Worker case ByCaller(u) => Caller(u);
      if s.lock.ByCaller? {
        assert Inside(s.callers[s.lock.t]);
      }
      StepInv(s, a);
      acts := CanReturn(Do(s, a), t);
      assert ([a] + acts)[1..] == acts;
      acts := [a] + acts;
    }
  }

  /** From every reachable state, a thread outside can call trigger_pulse and have it return. */
  lemma EveryCallReturns(s: State, t: nat) returns (acts: seq<Action>)
    requires Inv(s) && t < |s.callers| && s.callers[t].Outside?
    ensures acts != [] && acts[0] == Caller(t) && Runs(s, acts)
    ensures Do(s, Caller(t)).callers[t].Entering?
    ensures t < |After(s, acts).callers| && After(s, acts).callers[t].Outside?
  {
    StepInv(s, Caller(t));
    acts := CanReturn(Do(s, Caller(t)), t);
    assert ([Caller(t)] + acts)[1..] == acts;
    acts := [Caller(t)] + acts;
  }

  // ---- Draining ----

  predicate Quiet(s: State) { forall t :: 0 <= t < |s.callers| ==> s.callers[t].Outside? }

  predicate NoCalls(acts: seq<Action>) { forall i :: 0 <= i < |acts| ==> !acts[i].Caller? }

  /** Worker steps until the queue is empty; 0 exactly when it is. */
  function ToDrain(s: State): nat
    requires s.pending >= 0
  {
    if s.pending == 0 then 0
    else 4 * (s.pending - 1) + match s.worker
      case Taking => 1
      case Testing => 2
      case Locking => 3
      case Waking => 3
      case Unlocking => 4
      case Sleeping => 0
  }

  lemma DrainStep(s: State, a: Action)
    requires Inv(s) && Quiet(s) && Enabled(s, a) && !a.Caller? && s.pending > 0
    ensures Quiet(Do(s, a)) && a == Worker
    ensures Inv(Do(s, a)) && ToDrain(Do(s, a)) == ToDrain(s) - 1
  {
    StepInv(s, a);
    assert !SignalDue(s);
  }

  /** Once no trigger is under way, n pending pulses are taken in at most 4n steps of any
      schedule: as long as the queue is not empty the worker can step, and every step
      brings it closer. Spurious wake-ups cannot get in between. */
  lemma {:induction false} QueueDrains(s: State, acts: seq<Action>)
    requires Inv(s) && Quiet(s) && Runs(s, acts) && NoCalls(acts)
    ensures var s' := After(s, acts);
            && Inv(s') && Quiet(s')
            && s'.taken + s'.pending == s.taken + s.pending
            && (if |acts| < ToDrain(s) then s'.pending > 0 && Enabled(s', Worker) else s'.pending == 0)
    ensures ToDrain(s) <= 4 * s.pending
    decreases acts
  {
    if acts == [] {
      assert !SignalDue(s) ;
    } else {
      var s' := Do(s, acts[0]);
      StepInv(s, acts[0]);
      assert !acts[0].Caller?;
      assert !SignalDue(s);
      assert forall i :: 0 <= i < |acts[1..]| ==> acts[1..][i] == acts[i + 1];
      if s.pending > 0 {
        DrainStep(s, acts[0]);
      }
      QueueDrains(s', acts[1..]);
    }
  }
}
