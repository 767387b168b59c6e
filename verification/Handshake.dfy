/**
  The two kernel threads that hand a trigger to each other through two wait queues, and
  the module exit that stops them. wait_event_interruptible is cut into its real steps:
  the first test, going on the queue (the task state becomes "sleeping"), the test after
  that, and schedule(), from which only a wake-up returns.
 */
module Handshake {
  datatype Pc1 =
    | While1       // testing kthread_should_stop
    | Timer        // in ssleep
    | Set          // about to set the trigger
    | Wake2        // about to wake queue_2
    | First1 | Enqueue1 | Retest1 | Schedule1
    | Returned1

  datatype Pc2 =
    | While2
    | First2 | Enqueue2 | Retest2 | Schedule2
    | Reset        // about to reset the trigger
    | Wake1        // about to wake queue_1
    | Returned2

  /** sleeping_exit: each kthread_stop sets the stop flag, wakes the thread and joins it. */
  datatype Exit = NotCalled | Flag1 | Kick1 | Join1 | Flag2 | Kick2 | Join2 | Over

  datatype Event = Sets | Resets

  /** log is the history of writes to the trigger. */
  datatype State = State(
    t1: Pc1, t2: Pc2, exit: Exit, trigger: nat, sleep1: bool, sleep2: bool, log: seq<Event>)

  const INITIAL := State(While1, While2, NotCalled, 0, false, false, [])

  datatype Action = Thread1 | Thread2 | ExitStep

  /** kthread_should_stop() in each thread. */
  predicate Stop1(s: State) { !s.exit.NotCalled? && !s.exit.Flag1? }

  predicate Stop2(s: State) { s.exit.Kick2? || s.exit.Join2? || s.exit.Over? }

  predicate Enabled(s: State, a: Action) {
    match a
    case Thread1 => !s.t1.Returned1? && !(s.t1.Schedule1? && s.sleep1)
    case Thread2 => !s.t2.Returned2? && !(s.t2.Schedule2? && s.sleep2)
    case ExitStep =>
      && !s.exit.Over?
      && (s.exit.Join1? ==> s.t1.Returned1?)
      && (s.exit.Join2? ==> s.t2.Returned2?)
  }

  function Do1(s: State): State {
    var go := s.trigger == 0 || Stop1(s);
    match s.t1
    case While1 => s.(t1 := if Stop1(s) then Returned1 else Timer)
    case Timer => s.(t1 := Set)
    case Set => s.(t1 := Wake2, trigger := 1, log := s.log + [Sets])
    case Wake2 => s.(t1 := First1, sleep2 := false)
    case First1 => s.(t1 := if go then While1 else Enqueue1)
    case Enqueue1 => s.(t1 := Retest1, sleep1 := true)
    case Retest1 => if go then s.(t1 := While1, sleep1 := false) else s.(t1 := Schedule1)
    case Schedule1 => s.(t1 := Enqueue1)
    case Returned1 => s
  }

  function Do2(s: State): State {
    var go := s.trigger == 1 || Stop2(s);
    match s.t2
    case While2 => s.(t2 := if Stop2(s) then Returned2 else First2)
    case First2 => s.(t2 := if go then Reset else Enqueue2)
    case Enqueue2 => s.(t2 := Retest2, sleep2 := true)
    case Retest2 => if go then s.(t2 := Reset, sleep2 := false) else s.(t2 := Schedule2)
    case Schedule2 => s.(t2 := Enqueue2)
    case Reset => s.(t2 := Wake1, trigger := 0, log := s.log + [Resets])
    case Wake1 => s.(t2 := While2, sleep1 := false)
    case Returned2 => s
  }

  function DoExit(s: State): State {
    match s.exit
    case NotCalled => s.(exit := Flag1)
    case Flag1 => s.(exit := Kick1)
    case Kick1 => s.(exit := Join1, sleep1 := false)
    case Join1 => s.(exit := Flag2)
    case Flag2 => s.(exit := Kick2)
    case Kick2 => s.(exit := Join2, sleep2 := false)
    case Join2 => s.(exit := Over)
    case Over => s
  }

  function Do(s: State, a: Action): State
    requires Enabled(s, a)
  {
    match a
    case Thread1 => Do1(s)
    case Thread2 => Do2(s)
    case ExitStep => DoExit(s)
  }

  predicate Runs(s: State, acts: seq<Action>)
    decreases acts
  {
    acts == [] || (Enabled(s, acts[0]) && Runs(Do(s, acts[0]), acts[1..]))
  }

  function After(s: State, acts: seq<Action>): State
    requires Runs(s, acts)
    decreases acts
  {
    if acts == [] then s else After(Do(s, acts[0]), acts[1..])
  }

  // ---- Invariant ----

  predicate Alternates(log: seq<Event>) {
    forall i :: 0 <= i < |log| ==> (log[i] == if i % 2 == 0 then Sets else Resets)
  }

  /** In schedule() with nobody having woken the task. */
  predicate Blocked1(s: State) { s.t1.Schedule1? && s.sleep1 }

  predicate Blocked2(s: State) { s.t2.Schedule2? && s.sleep2 }

  predicate Inv(s: State) {
    && s.trigger <= 1
    && (!Stop2(s) ==> Alternates(s.log) && s.trigger == |s.log| % 2)
    && (s.t1.Timer? || s.t1.Set? || (s.t1.While1? && !Stop1(s)) ==> s.trigger == 0)
    && (s.t2.Reset? && !Stop2(s) ==> s.trigger == 1)
    && (s.sleep1 ==> s.t1.Retest1? || s.t1.Schedule1?)
    && (s.sleep2 ==> s.t2.Retest2? || s.t2.Schedule2?)
    // No lost wake-up: whoever is blocked has nothing to do, or its wake-up is the
    // next step of the other side.
    && (Blocked1(s) ==> s.trigger == 1 || s.t2.Wake1?)
    && (Blocked2(s) ==> s.trigger == 0 || s.t1.Wake2?)
    && (Blocked1(s) && Stop1(s) ==> s.exit.Kick1?)
    && (Blocked2(s) && Stop2(s) ==> s.exit.Kick2?)
    && (s.t1.Returned1? ==> Stop1(s))
    && (s.t2.Returned2? ==> Stop2(s))
    && (s.exit.Flag2? || Stop2(s) ==> s.t1.Returned1?)
    && (s.exit.Over? ==> s.t2.Returned2?)
  }

  lemma Thread1Inv(s: State)
    requires Inv(s) && Enabled(s, Thread1)
    ensures Inv(Do1(s))
  {}

  lemma Thread2Inv(s: State)
    requires Inv(s) && Enabled(s, Thread2)
    ensures Inv(Do2(s))
  {}

  lemma StepInv(s: State, a: Action)
    requires Inv(s) && Enabled(s, a)
    ensures Inv(Do(s, a))
  {
    match a
    case Thread1 => Thread1Inv(s);
    case Thread2 => Thread2Inv(s);
    case ExitStep =>
  }

  lemma {:induction false} RunInv(s: State, acts: seq<Action>)
    requires Inv(s) && Runs(s, acts)
    ensures Inv(After(s, acts))
    decreases acts
  {
    if acts != [] {
      StepInv(s, acts[0]);
      RunInv(Do(s, acts[0]), acts[1..]);
    }
  }

  function Count(e: Event, log: seq<Event>): nat {
    if log == [] then 0 else Count(e, log[..|log| - 1]) + if log[|log| - 1] == e then 1 else 0
  }

  lemma {:induction false} AlternatingCounts(log: seq<Event>)
    requires Alternates(log)
    ensures Count(Sets, log) - Count(Resets, log) == |log| % 2
  {
    if log != [] {
      AlternatingCounts(log[..|log| - 1]);
    }
  }

  /** Until thread 2 is asked to stop, sets and resets strictly alternate, starting with a
      set, and their difference is the trigger; the threads are never both blocked, and
      neither is blocked while its own condition holds and no wake-up is on the way. */
  lemma Reachable(acts: seq<Action>)
    requires Runs(INITIAL, acts)
    ensures var s := After(INITIAL, acts);
            && Inv(s)
            && !(Blocked1(s) && Blocked2(s))
            && (!Stop2(s) ==> Alternates(s.log) && Count(Sets, s.log) - Count(Resets, s.log) == s.trigger <= 1)
  {
    RunInv(INITIAL, acts);
    var s := After(INITIAL, acts);
    if !Stop2(s) {
      AlternatingCounts(s.log);
    }
  }

  lemma Prepend(s: State, a: Action, rest: seq<Action>)
    requires Enabled(s, a) && Runs(Do(s, a), rest)
    ensures Runs(s, [a] + rest) && After(s, [a] + rest) == After(Do(s, a), rest)
  {
    assert ([a] + rest)[1..] == rest;
  }

  // ---- Alternation and the stop of thread 2 ----

  /** Thread 2 is in its wait, or past it and about to reset. */
  predicate Waits2(s: State) {
    s.t2.First2? || s.t2.Enqueue2? || s.t2.Retest2? || s.t2.Schedule2? || s.t2.Reset?
  }

  ghost predicate AlwaysAlternates(s: State) {
    forall acts :: Runs(s, acts) ==> Alternates(After(s, acts).log)
  }

  /** The stop flag of thread 2 leaves the alternation intact exactly when a thread caught
      in its wait, or on the way from it to the reset, has something to reset. */
  lemma StopKeepsAlternationIff(s: State)
    requires Inv(s) && s.exit.Flag2?
    ensures AlwaysAlternates(DoExit(s)) <==> (Waits2(s) ==> s.trigger == 1)
  {
    var s' := DoExit(s);
    if Waits2(s) && s.trigger != 1 {
      var acts := RunToBadReset(s');
      assert Runs(s', acts) && !Alternates(After(s', acts).log);
    } else {
      forall acts | Runs(s', acts) ensures Alternates(After(s', acts).log) {
        GoodStopRun(s', acts);
      }
    }
  }

  /** Thread 2 alone is left, and if it will reset, the trigger is set. */
  predicate StopsWell(s: State) {
    && Stop2(s) && s.t1.Returned1? && Alternates(s.log) && s.trigger == |s.log| % 2
    && (Waits2(s) ==> s.trigger == 1)
  }

  lemma {:induction false} GoodStopRun(s: State, acts: seq<Action>)
    requires StopsWell(s) && Runs(s, acts)
    ensures Alternates(After(s, acts).log)
    decreases acts
  {
    if acts != [] {
      assert StopsWell(Do(s, acts[0]));
      GoodStopRun(Do(s, acts[0]), acts[1..]);
    }
  }

  /** Thread 2 runs, woken by kthread_stop if it must be, up to a reset of a trigger that
      is already 0. */
  lemma {:induction false} RunToBadReset(s: State) returns (acts: seq<Action>)
    requires Inv(s) && Stop2(s) && Waits2(s) && s.trigger == 0 && |s.log| % 2 == 0
    ensures Runs(s, acts) && !Alternates(After(s, acts).log)
    decreases Left(s)
  {
    var a := if Enabled(s, Thread2) then Thread2 else ExitStep;
    var s' := Do(s, a);
    if s.t2.Reset? {
      acts := [];
      assert s'.log[|s.log|] == Resets;
    } else {
      StepInv(s, a);
      StepExits(s, a);
      acts := RunToBadReset(s');
    }
    Prepend(s, a, acts);
    acts := [a] + acts;
  }

  /** Such a state is reachable: thread 2 starts waiting, and exit is called at once. */
  lemma StopBreaksAlternation() returns (acts: seq<Action>)
    ensures Runs(INITIAL, acts) && !Alternates(After(INITIAL, acts).log)
  {
    var s1 := INITIAL.(t2 := First2);
    var s2 := s1.(exit := Flag1);
    var s3 := s1.(exit := Kick1);
    var s4 := s1.(exit := Join1);
    var s5 := s4.(t1 := Returned1);
    var s6 := s5.(exit := Flag2);
    acts := RunToBadReset(DoExit(s6));
    Prepend(s6, ExitStep, acts); acts := [ExitStep] + acts;
    Prepend(s5, ExitStep, acts); acts := [ExitStep] + acts;
    Prepend(s4, Thread1, acts);  acts := [Thread1] + acts;
    Prepend(s3, ExitStep, acts); acts := [ExitStep] + acts;
    Prepend(s2, ExitStep, acts); acts := [ExitStep] + acts;
    Prepend(s1, ExitStep, acts); acts := [ExitStep] + acts;
    Prepend(INITIAL, Thread2, acts); acts := [Thread2] + acts;
  }

  // ---- Every set is timed ----

  /** The ssleep calls of thread 1 that end in the run. */
  function Sleeps(s: State, acts: seq<Action>): nat
    requires Runs(s, acts)
    decreases acts
  {
    if acts == [] then 0
    else (if acts[0].Thread1? && s.t1.Timer? then 1 else 0) + Sleeps(Do(s, acts[0]), acts[1..])
  }

  function AboutToSet(s: State): nat { if s.t1.Set? then 1 else 0 }

  /** What a step adds to the history. */
  function Logged(s: State, a: Action): seq<Event> {
    if a.Thread1? && s.t1.Set? then [Sets] else if a.Thread2? && s.t2.Reset? then [Resets] else []
  }

  lemma StepTimed(s: State, a: Action)
    requires Enabled(s, a)
    ensures Do(s, a).log == s.log + Logged(s, a)
    ensures (if a.Thread1? && s.t1.Timer? then 1 else 0) + AboutToSet(s)
            == (if Logged(s, a) == [Sets] then 1 else 0) + AboutToSet(Do(s, a))
  {
    if Logged(s, a) == [] {
      assert Do(s, a).log == s.log;
    }
  }

  lemma CountAppend(log: seq<Event>, more: seq<Event>)
    requires |more| <= 1
    ensures Count(Sets, log + more) == Count(Sets, log) + if more == [Sets] then 1 else 0
  {
    if more == [] {
      assert log + more == log;
    } else {
      assert (log + more)[..|log|] == log;
    }
  }

  /** Thread 1 sets the trigger once for every sleep it has finished, but for one about to
      be made. */
  lemma {:induction false} EachSetIsTimed(s: State, acts: seq<Action>)
    requires Runs(s, acts)
    ensures Sleeps(s, acts) + AboutToSet(s) + Count(Sets, s.log)
            == Count(Sets, After(s, acts).log) + AboutToSet(After(s, acts))
    decreases acts
  {
    if acts != [] {
      StepTimed(s, acts[0]);
      CountAppend(s.log, Logged(s, acts[0]));
      EachSetIsTimed(Do(s, acts[0]), acts[1..]);
    }
  }

  /** Some thread can always step, until both have returned. */
  lemma NeverStuck(s: State)
    requires Inv(s) && !(s.t1.Returned1? && s.t2.Returned2?)
    ensures Enabled(s, Thread1) || Enabled(s, Thread2) || (!s.exit.NotCalled? && Enabled(s, ExitStep))
  {}

  // ---- The handshake keeps going ----

  predicate BeforeExit(s: State) { s.exit.NotCalled? }

  /** An upper bound on the steps thread 1 makes before the trigger next changes. */
  function Idle1(s: State): nat {
    if s.trigger == 0 then
      match s.t1
      case Set => 0
      case Timer => 1
      case While1 => 2
      case Retest1 => 3
      case First1 => 3
      case Enqueue1 => 4
      case Schedule1 => 5
      case Wake2 => 8
      case Returned1 => 0
    else
      match s.t1
      case Wake2 => 8
      case First1 => 3
      case Enqueue1 => 2
      case Retest1 => if s.sleep1 then 1 else 4
      case Schedule1 => if s.sleep1 then 0 else 3
      case _ => 0
  }

  function Idle2(s: State): nat {
    if s.trigger == 1 then
      match s.t2
      case Reset => 0
      case Retest2 => 1
      case First2 => 1
      case Enqueue2 => 2
      case While2 => 2
      case Schedule2 => 3
      case Wake1 => 7
      case Returned2 => 0
    else
      match s.t2
      case Wake1 => 9
      case While2 => 4
      case First2 => 3
      case Enqueue2 => 2
      case Retest2 => if s.sleep2 then 1 else 4
      case Schedule2 => if s.sleep2 then 0 else 3
      case _ => 0
  }

  const BEAT := 17

  lemma StepBeat(s: State, a: Action)
    requires Inv(s) && BeforeExit(s) && Enabled(s, a) && !a.ExitStep?
    ensures var s' := Do(s, a);
            if s'.log == s.log then Idle1(s') + Idle2(s') < Idle1(s) + Idle2(s)
            else |s'.log| == |s.log| + 1
  {}

  lemma IdleBound(s: State)
    requires Inv(s) && BeforeExit(s)
    ensures Idle1(s) + Idle2(s) <= BEAT
  {}

  predicate NoExit(acts: seq<Action>) { forall i :: 0 <= i < |acts| ==> !acts[i].ExitStep? }

  /** Until exit is called, any schedule of the two threads, fair or not, changes the
      trigger at least once in every 18 steps. */
  lemma {:induction false} KeepsBeating(s: State, acts: seq<Action>)
    requires Inv(s) && BeforeExit(s) && Runs(s, acts) && NoExit(acts)
    ensures |acts| <= Idle1(s) + Idle2(s) + (BEAT + 1) * (|After(s, acts).log| - |s.log|)
    ensures Idle1(s) + Idle2(s) <= BEAT
    decreases acts
  {
    IdleBound(s);
    if acts != [] {
      var s' := Do(s, acts[0]);
      StepInv(s, acts[0]);
      StepBeat(s, acts[0]);
      assert forall i :: 0 <= i < |acts[1..]| ==> acts[1..][i] == acts[i + 1];
      KeepsBeating(s', acts[1..]);
    }
  }

  // ---- Exit ----

  /** Steps left to thread 1 once its stop flag is set. */
  function Left1(t: Pc1): nat {
    match t
    case Returned1 => 0
    case While1 => 1
    case First1 => 2
    case Retest1 => 2
    case Enqueue1 => 3
    case Wake2 => 3
    case Schedule1 => 4
    case Set => 4
    case Timer => 5
  }

  /** Steps left to thread 2, for the trigger as it is. */
  function Left2(s: State): nat {
    if Stop2(s) then
      match s.t2
      case Returned2 => 0
      case While2 => 1
      case Wake1 => 2
      case Reset => 3
      case First2 => 4
      case Retest2 => 4
      case Enqueue2 => 5
      case Schedule2 => 6
    else if s.trigger == 1 then
      match s.t2
      case Reset => 6
      case First2 => 7
      case Retest2 => 7
      case Enqueue2 => 8
      case While2 => 8
      case Schedule2 => 9
      case Wake1 => 9
      case Returned2 => 0
    else
      match s.t2
      case Wake1 => 5
      case While2 => 4
      case First2 => 3
      case Enqueue2 => 2
      case Retest2 => if s.sleep2 then 1 else 4
      case Schedule2 => if s.sleep2 then 0 else 3
      case _ => 0
  }

  function LeftExit(e: Exit): nat {
    match e
    case NotCalled => 7
    case Flag1 => 6
    case Kick1 => 5
    case Join1 => 4
    case Flag2 => 3
    case Kick2 => 2
    case Join2 => 1
    case Over => 0
  }

  function Left(s: State): nat { 10 * (Left1(s.t1) + LeftExit(s.exit)) + Left2(s) }

  lemma StepExits(s: State, a: Action)
    requires Inv(s) && Stop1(s) && Enabled(s, a)
    ensures Stop1(Do(s, a)) && Left(Do(s, a)) < Left(s)
  {}

  /** From any reachable state in which exit has flagged thread 1, every schedule is
      finite, and it can only end with both threads returned and exit over. */
  lemma {:induction false} ExitTerminates(s: State, acts: seq<Action>)
    requires Inv(s) && Stop1(s) && Runs(s, acts)
    ensures |acts| <= Left(s) <= 109
    ensures var s' := After(s, acts);
            (forall a :: !Enabled(s', a)) <==> s'.t1.Returned1? && s'.t2.Returned2? && s'.exit.Over?
    decreases acts
  {
    if acts == [] {
      if forall a :: !Enabled(s, a) {
        assert !Enabled(s, Thread1) && !Enabled(s, Thread2) && !Enabled(s, ExitStep);
      }
    } else {
      StepInv(s, acts[0]);
      StepExits(s, acts[0]);
      ExitTerminates(Do(s, acts[0]), acts[1..]);
    }
  }
}
