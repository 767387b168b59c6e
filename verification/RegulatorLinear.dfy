/**
  Calls as atomic operations. A direct write and an automatic pass take effect in one
  lock-protected region. A call under app_lock (increase, decrease, toggle) reads in one
  region and stores in another, and any write may land in between; it is explained if it
  can be given a place between its read and its store, among those writes, such that
  executing everything one at a time gives the same outcome. The calls that cannot be
  explained are characterised exactly.
 */
module RegulatorLinear {
  import opened CInt
  import opened Seqs
  import opened Regulator
  import opened RegulatorRuns

  datatype Atomic =
    | ByCall(t: nat, kind: Kind)
    | SetMode(t: nat, m: int)
    | SetPeriod(t: nat, p: int)
    | ByPass(v: int)

  function Act(c: Core, op: Atomic): Core {
    match op
    case ByCall(_, Inc) => Increased(c)
    case ByCall(_, Dec) => Decreased(c)
    case ByCall(_, Toggle) => Toggled(c)
    case SetMode(_, m) => WithMode(c, m)
    case SetPeriod(_, p) => WithPeriod(c, p)
    case ByPass(v) => WithAutoPeriod(c, v)
  }

  function ActAll(c: Core, ops: seq<Atomic>): Core
    decreases ops
  {
    if ops == [] then c else ActAll(Act(c, ops[0]), ops[1..])
  }

  /** What takes effect in a step, every call at its last access to the kernel. */
  function Commit(s: State, a: Action): seq<Atomic>
    requires Enabled(s, a)
  {
    match a
    case Begin(_, _) => []
    case Client(t) => (
      match s.clients[t]
      case SetsMode(m) => [SetMode(t, m)]
      case SetsPeriod(p) => [SetPeriod(t, p)]
      case Reads(k) => if k == Dec && s.core.period <= GAP_PERIOD_MS then [ByCall(t, Dec)] else []
      case Stores(k, v) => [ByCall(t, k)]
      case _ => [])
    case RegulatorStep(_) => if s.reg.StoresAuto? then [ByPass(s.reg.v)] else []
  }

  function Commits(s: State, acts: seq<Action>): seq<Atomic>
    requires Runs(s, acts)
    decreases acts
  {
    if acts == [] then [] else Commit(s, acts[0]) + Commits(Do(s, acts[0]), acts[1..])
  }

  /** Mode and period; the blink period follows from them whenever the lock is free. */
  predicate Same(c: Core, d: Core) { c.mode == d.mode && c.period == d.period }

  lemma SameAct(c: Core, d: Core, op: Atomic)
    requires Same(c, d)
    ensures Same(Act(c, op), Act(d, op))
  {}

  lemma {:induction false} SameActs(c: Core, d: Core, ops: seq<Atomic>)
    requires Same(c, d)
    ensures Same(ActAll(c, ops), ActAll(d, ops))
    decreases ops
  {
    if ops != [] {
      SameAct(c, d, ops[0]);
      SameActs(Act(c, ops[0]), Act(d, ops[0]), ops[1..]);
    }
  }

  lemma {:induction false} ActConcat(c: Core, a: seq<Atomic>, b: seq<Atomic>)
    ensures ActAll(c, a + b) == ActAll(ActAll(c, a), b)
    decreases a
  {
    if a == [] {
      assert a + b == b;
    } else {
      assert (a + b)[1..] == a[1..] + b;
      ActConcat(Act(c, a[0]), a[1..], b);
    }
  }

  lemma ActOne(c: Core, op: Atomic)
    ensures ActAll(c, [op]) == Act(c, op)
  {
    assert [op][1..] == [];
  }

  // ---- The value a call holds between its read and its store ----

  /** The value a period call stores if it read period p; p itself if its guard fails. */
  function FromRead(k: Kind, p: int): int
    requires k != Toggle
  {
    if k == Inc then (p + GAP_PERIOD_MS) % U32
    else if p > GAP_PERIOD_MS then p - GAP_PERIOD_MS else p
  }

  /** v is what a call of this kind computes from the core as it is. */
  predicate UpToDate(c: Core, k: Kind, v: int) {
    if k == Toggle then v == Flip(c.mode) else v == FromRead(k, c.period)
  }

  /** What storing v does. */
  function AfterStore(c: Core, k: Kind, v: int): Core {
    if k == Toggle then WithMode(c, v) else WithPeriod(c, v)
  }

  lemma UpToDateStore(c: Core, k: Kind, v: int, t: nat)
    requires UpToDate(c, k, v)
    ensures Same(AfterStore(c, k, v), Act(c, ByCall(t, k)))
  {}

  /** The store is accepted and makes a period that is neither the one it finds nor the
      one the call would compute from it. */
  predicate Torn(c: Core, k: Kind, v: int) {
    k != Toggle && c.mode == MANUAL && v > 0 && v != c.period && v != FromRead(k, c.period)
  }

  // ---- Placing calls in their windows ----

  function Insert(ops: seq<Atomic>, j: nat, op: Atomic): seq<Atomic>
    requires j <= |ops|
  {
    ops[..j] + [op] + ops[j..]
  }

  predicate IsStore(s: State, a: Action) { a.Client? && a.t < |s.clients| && s.clients[a.t].Stores? }

  predicate IsRead(s: State, a: Action) { a.Client? && a.t < |s.clients| && s.clients[a.t].Reads? }

  /** `all` is an order of everything the run does that respects the windows: done is what
      took effect so far, window what of it took effect before the last read. A write goes
      to the end; a call that stores goes anywhere between its read and now. */
  ghost predicate Explains(s: State, acts: seq<Action>, done: seq<Atomic>, window: nat, all: seq<Atomic>)
    requires Runs(s, acts) && window <= |done|
    decreases acts
  {
    if acts == [] then all == done
    else if IsStore(s, acts[0]) then
      exists j :: window <= j <= |done| && ExplainsFrom(s, acts, Insert(done, j, Commit(s, acts[0])[0]), window, all)
    else
      ExplainsFrom(s, acts, done + Commit(s, acts[0]), if IsRead(s, acts[0]) then |done| else window, all)
  }

  ghost predicate ExplainsFrom(s: State, acts: seq<Action>, done: seq<Atomic>, window: nat, all: seq<Atomic>)
    requires Runs(s, acts) && acts != []
    decreases acts, 0
  {
    window <= |done| && Explains(Do(s, acts[0]), acts[1..], done, window, all)
  }

  /** No store of the run is torn. */
  predicate Untorn(s: State, acts: seq<Action>)
    requires Runs(s, acts)
    decreases acts
  {
    acts == [] || (
      && (IsStore(s, acts[0]) ==> !Torn(s.core, s.clients[acts[0].t].kind, s.clients[acts[0].t].v))
      && Untorn(Do(s, acts[0]), acts[1..]))
  }

  /** Carried out from c at place j, the call has left no trace: what followed hid it. */
  predicate Hidden(c: Core, done: seq<Atomic>, j: nat, op: Atomic, now: Core) {
    j <= |done| && Same(ActAll(c, Insert(done, j, op)), now)
  }

  /** The pending store of t is up to date, or the call is hidden at some place in its window. */
  ghost predicate Covered(c: Core, done: seq<Atomic>, window: nat, s: State, t: nat)
    requires t < |s.clients| && s.clients[t].Stores?
  {
    var k := s.clients[t].kind;
    UpToDate(s.core, k, s.clients[t].v) || exists j :: window <= j && Hidden(c, done, j, ByCall(t, k), s.core)
  }

  ghost predicate AllCovered(c: Core, done: seq<Atomic>, window: nat, s: State) {
    forall t :: 0 <= t < |s.clients| && s.clients[t].Stores? ==> Covered(c, done, window, s, t)
  }

  /** A write that changes what the call read leaves the same state whether or not the
      call was carried out just before it. */
  lemma WriteHides(c: Core, op: Atomic, t: nat, k: Kind, v: int)
    requires !op.ByCall? && (c.mode == MANUAL || c.mode == AUTO)
    requires UpToDate(c, k, v) && !UpToDate(Act(c, op), k, v)
    ensures Same(Act(Act(c, ByCall(t, k)), op), Act(c, op))
  {}

  lemma InsertThen(done: seq<Atomic>, j: nat, op: Atomic, more: seq<Atomic>)
    requires j <= |done|
    ensures Insert(done + more, j, op) == Insert(done, j, op) + more
  {}

  lemma HiddenThen(c: Core, done: seq<Atomic>, j: nat, op: Atomic, now: Core, w: Atomic)
    requires Hidden(c, done, j, op, now)
    ensures Hidden(c, done + [w], j, op, Act(now, w))
  {
    var placed := Insert(done, j, op);
    InsertThen(done, j, op, [w]);
    ActConcat(c, placed, [w]);
    SameAct(ActAll(c, placed), now, w);
    ActOne(ActAll(c, placed), w);
  }

  /** A write to the end keeps a call covered: hidden before it if it was up to date and
      no longer is. */
  lemma CoveredThen(c: Core, done: seq<Atomic>, now: Core, w: Atomic, t: nat, k: Kind, v: int)
    requires Same(ActAll(c, done), now) && (now.mode == MANUAL || now.mode == AUTO)
    requires !w.ByCall? && UpToDate(now, k, v)
    ensures UpToDate(Act(now, w), k, v) || Hidden(c, done + [w], |done|, ByCall(t, k), Act(now, w))
  {
    if !UpToDate(Act(now, w), k, v) {
      var op := ByCall(t, k);
      WriteHides(now, w, t, k, v);
      assert Insert(done + [w], |done|, op) == done + [op, w];
      ActConcat(c, done, [op, w]);
      assert [op, w][1..] == [w];
      ActOne(Act(ActAll(c, done), op), w);
      SameAct(ActAll(c, done), now, op);
      SameAct(Act(ActAll(c, done), op), Act(now, op), w);
    }
  }

  /** One step other than a store: what commits goes to the end. */
  lemma StepPlaced(s: State, a: Action, c: Core, done: seq<Atomic>)
    requires Inv(s) && Enabled(s, a) && !IsStore(s, a) && Same(ActAll(c, done), s.core)
    ensures Same(ActAll(c, done + Commit(s, a)), Do(s, a).core)
    ensures |Commit(s, a)| <= 1
  {
    var ops := Commit(s, a);
    ActConcat(c, done, ops);
    SameActs(ActAll(c, done), s.core, ops);
    if ops != [] {
      assert ops == [ops[0]];
      ActOne(s.core, ops[0]);
    }
  }

  /** Only one call is between its read and its store, and no other call takes effect there. */
  lemma OneWindow(s: State, a: Action, t: nat)
    requires Inv(s) && Enabled(s, a) && t < |s.clients| && s.clients[t].Stores?
    requires !(a.Client? && a.t == t)
    ensures !IsStore(s, a) && !IsRead(s, a)
    ensures Commit(s, a) != [] ==> !Commit(s, a)[0].ByCall?
    ensures Do(s, a).clients[t] == s.clients[t]
    ensures Same(Do(s, a).core, if Commit(s, a) == [] then s.core else Act(s.core, Commit(s, a)[0]))
  {
    assert HoldsApp(s.clients[t]);
    forall u | 0 <= u < |s.clients| && u != t ensures !HoldsApp(s.clients[u]) {}
  }

  lemma OtherStepCovered(s: State, a: Action, c: Core, done: seq<Atomic>, window: nat, t: nat)
    requires Inv(s) && Enabled(s, a) && Same(ActAll(c, done), s.core) && window <= |done|
    requires t < |s.clients| && s.clients[t].Stores? && Covered(c, done, window, s, t)
    requires !(a.Client? && a.t == t)
    ensures Do(s, a).clients[t] == s.clients[t] && Covered(c, done + Commit(s, a), window, Do(s, a), t)
  {
    OneWindow(s, a, t);
    var k, v, ops, now := s.clients[t].kind, s.clients[t].v, Commit(s, a), Do(s, a).core;
    StepPlaced(s, a, c, done);
    if ops == [] {
      assert done + ops == done;
      if !UpToDate(s.core, k, v) {
        var j :| window <= j && Hidden(c, done, j, ByCall(t, k), s.core);
        assert Hidden(c, done, j, ByCall(t, k), now);
      }
    } else {
      var w := ops[0];
      assert ops == [w];
      if UpToDate(s.core, k, v) {
        CoveredThen(c, done, s.core, w, t, k, v);
        assert UpToDate(now, k, v) || Hidden(c, done + [w], |done|, ByCall(t, k), now);
      } else {
        var j :| window <= j && Hidden(c, done, j, ByCall(t, k), s.core);
        HiddenThen(c, done, j, ByCall(t, k), s.core, w);
        assert Hidden(c, done + [w], j, ByCall(t, k), now);
      }
    }
  }

  /** After a read, the call that read is up to date; nobody else is in a window. */
  lemma StepCovered(s: State, a: Action, c: Core, done: seq<Atomic>, window: nat)
    requires Inv(s) && Enabled(s, a) && !IsStore(s, a) && Same(ActAll(c, done), s.core)
    requires window <= |done| && AllCovered(c, done, window, s)
    ensures AllCovered(c, done + Commit(s, a), if IsRead(s, a) then |done| else window, Do(s, a))
  {
    var s' := Do(s, a);
    forall t | 0 <= t < |s'.clients| && s'.clients[t].Stores?
      ensures Covered(c, done + Commit(s, a), if IsRead(s, a) then |done| else window, s', t)
    {
      if a.Client? && a.t == t {
        assert UpToDate(s'.core, s'.clients[t].kind, s'.clients[t].v);
      } else {
        OneWindow(s, a, t);
        OtherStepCovered(s, a, c, done, window, t);
      }
    }
  }

  /** A store that is not torn has a place in its window. */
  lemma StorePlaced(s: State, t: nat, c: Core, done: seq<Atomic>, window: nat) returns (j: nat)
    requires Inv(s) && Enabled(s, Client(t)) && s.clients[t].Stores?
    requires !Torn(s.core, s.clients[t].kind, s.clients[t].v)
    requires Same(ActAll(c, done), s.core) && window <= |done| && Covered(c, done, window, s, t)
    ensures window <= j <= |done|
    ensures Same(ActAll(c, Insert(done, j, ByCall(t, s.clients[t].kind))), Do(s, Client(t)).core)
  {
    var k, v := s.clients[t].kind, s.clients[t].v;
    var op := ByCall(t, k);
    assert Same(Do(s, Client(t)).core, AfterStore(s.core, k, v));
    if UpToDate(s.core, k, v) {
      j := |done|;
      assert Insert(done, j, op) == done + [op];
      ActConcat(c, done, [op]);
      ActOne(ActAll(c, done), op);
      SameAct(ActAll(c, done), s.core, op);
      UpToDateStore(s.core, k, v, t);
    } else {
      j :| window <= j && Hidden(c, done, j, op, s.core);
      StoreIsIdle(s, t);
    }
  }

  /** A store neither torn nor up to date changes nothing. */
  lemma StoreIsIdle(s: State, t: nat)
    requires Inv(s) && t < |s.clients| && s.clients[t].Stores?
    requires !Torn(s.core, s.clients[t].kind, s.clients[t].v)
    requires !UpToDate(s.core, s.clients[t].kind, s.clients[t].v)
    ensures Same(AfterStore(s.core, s.clients[t].kind, s.clients[t].v), s.core)
  {
    assert PcInRange(s.clients[t]);
  }

  lemma AfterStoreNobodyWaits(s: State, t: nat)
    requires Inv(s) && Enabled(s, Client(t)) && s.clients[t].Stores?
    ensures forall u :: 0 <= u < |Do(s, Client(t)).clients| ==> !Do(s, Client(t)).clients[u].Stores?
  {
    assert HoldsApp(s.clients[t]);
    forall u | 0 <= u < |s.clients| && u != t ensures !HoldsApp(s.clients[u]) {}
  }

  lemma {:induction false} Placement(s: State, acts: seq<Action>, c: Core, done: seq<Atomic>, window: nat)
    returns (all: seq<Atomic>)
    requires Inv(s) && Runs(s, acts) && Untorn(s, acts) && Same(ActAll(c, done), s.core)
    requires window <= |done| && AllCovered(c, done, window, s)
    ensures Explains(s, acts, done, window, all) && Same(ActAll(c, all), After(s, acts).core)
    decreases acts
  {
    if acts == [] {
      all := done;
    } else {
      var a, s' := acts[0], Do(s, acts[0]);
      StepInv(s, a);
      if IsStore(s, a) {
        assert Covered(c, done, window, s, a.t);
        var j := StorePlaced(s, a.t, c, done, window);
        AfterStoreNobodyWaits(s, a.t);
        var placed := Insert(done, j, Commit(s, a)[0]);
        all := Placement(s', acts[1..], c, placed, window);
        assert ExplainsFrom(s, acts, placed, window, all);
      } else {
        StepPlaced(s, a, c, done);
        StepCovered(s, a, c, done, window);
        all := Placement(s', acts[1..], c, done + Commit(s, a), if IsRead(s, a) then |done| else window);
      }
    }
  }

  /** Linearizability: a run without torn stores, direct writes and automatic passes
      included, has an order that respects the windows and gives its mode and period. */
  lemma Linearizable(n: nat, acts: seq<Action>)
    requires Runs(Initial(n), acts) && Untorn(Initial(n), acts)
    ensures exists all ::
              Explains(Initial(n), acts, [], 0, all) && Same(ActAll(INITIAL, all), After(Initial(n), acts).core)
  {
    InitialInv(n);
    var all := Placement(Initial(n), acts, INITIAL, [], 0);
  }

  // ---- One call and its window, exactly ----

  predicate WithoutClient(t: nat, acts: seq<Action>) {
    forall i :: 0 <= i < |acts| ==> acts[i] != Client(t)
  }

  /** With the writes in the order in which they landed, and the call at some place among
      them, executing everything one at a time gives this outcome. */
  ghost predicate Explained(c: Core, writes: seq<Atomic>, op: Atomic, outcome: Core) {
    exists j :: Hidden(c, writes, j, op, outcome)
  }

  /** A call that has just read, whatever happens up to its store: it has a place among the
      writes that landed in between if and only if the store is not torn. */
  lemma ExplainedIffNotTorn(s: State, t: nat, win: seq<Action>)
    requires Inv(s) && t < |s.clients| && s.clients[t].Stores?
    requires UpToDate(s.core, s.clients[t].kind, s.clients[t].v)
    requires Runs(s, win) && WithoutClient(t, win) && Enabled(After(s, win), Client(t))
    ensures var k, v := s.clients[t].kind, s.clients[t].v;
            Explained(s.core, Commits(s, win), ByCall(t, k), Do(After(s, win), Client(t)).core)
            <==> !Torn(After(s, win).core, k, v)
  {
    var k, v, ws, at := s.clients[t].kind, s.clients[t].v, Commits(s, win), After(s, win);
    var outcome := Do(at, Client(t)).core;
    RunInv(s, win);
    assert Covered(s.core, [], 0, s, t);
    WindowWrites(s, win, t);
    WindowCovered(s, win, s.core, [], t);
    assert [] + ws == ws;
    if !Torn(at.core, k, v) {
      var j := StorePlaced(at, t, s.core, ws, 0);
      assert Hidden(s.core, ws, j, ByCall(t, k), outcome);
    } else {
      assert outcome.period == v;
      forall j | 0 <= j <= |ws| ensures !Hidden(s.core, ws, j, ByCall(t, k), outcome) {
        InsertedCall(s.core, ws, j, t, k);
      }
    }
  }

  predicate OnlyWrites(ops: seq<Atomic>) { forall i :: 0 <= i < |ops| ==> !ops[i].ByCall? }

  lemma WithoutRest(t: nat, acts: seq<Action>)
    requires acts != [] && WithoutClient(t, acts)
    ensures acts[0] != Client(t) && WithoutClient(t, acts[1..])
  {}

  /** In the window the pending store stays, and only writes take effect. */
  lemma {:induction false} WindowWrites(s: State, win: seq<Action>, t: nat)
    requires Inv(s) && Runs(s, win) && WithoutClient(t, win) && t < |s.clients| && s.clients[t].Stores?
    ensures t < |After(s, win).clients| && After(s, win).clients[t] == s.clients[t]
    ensures OnlyWrites(Commits(s, win))
    decreases win
  {
    if win != [] {
      WithoutRest(t, win);
      StepInv(s, win[0]);
      OneWindow(s, win[0], t);
      WindowWrites(Do(s, win[0]), win[1..], t);
    }
  }

  /** c and what took effect give the state, and the call of t is covered. */
  ghost predicate Follows(c: Core, done: seq<Atomic>, s: State, t: nat) {
    t < |s.clients| && s.clients[t].Stores? && Same(ActAll(c, done), s.core) && Covered(c, done, 0, s, t)
  }

  lemma WindowStep(s: State, a: Action, c: Core, done: seq<Atomic>, t: nat)
    requires Inv(s) && Enabled(s, a) && a != Client(t) && Follows(c, done, s, t)
    ensures Follows(c, done + Commit(s, a), Do(s, a), t)
  {
    OneWindow(s, a, t);
    StepPlaced(s, a, c, done);
    OtherStepCovered(s, a, c, done, 0, t);
  }

  /** In the window the call stays covered. */
  lemma {:induction false} WindowCovered(s: State, win: seq<Action>, c: Core, done: seq<Atomic>, t: nat)
    requires Inv(s) && Runs(s, win) && WithoutClient(t, win) && Follows(c, done, s, t)
    ensures Follows(c, done + Commits(s, win), After(s, win), t)
    decreases win
  {
    if win == [] {
      assert done + Commits(s, win) == done;
    } else {
      var a, ops, more := win[0], Commit(s, win[0]), Commits(Do(s, win[0]), win[1..]);
      WithoutRest(t, win);
      StepInv(s, a);
      WindowStep(s, a, c, done, t);
      WindowCovered(Do(s, a), win[1..], c, done + ops, t);
      assert done + (ops + more) == (done + ops) + more;
    }
  }

  /** A period call that read p leaves p or what it computes from p. */
  predicate Reached(k: Kind, p: int, q: int) { k != Toggle ==> q == p || q == FromRead(k, p) }

  lemma {:induction false} ExtraCall(c: Core, d: Core, k: Kind, ws: seq<Atomic>)
    requires OnlyWrites(ws)
    requires k != Toggle && c.mode == d.mode && Reached(k, c.period, d.period)
    ensures Reached(k, ActAll(c, ws).period, ActAll(d, ws).period)
    decreases ws
  {
    if ws != [] {
      ExtraCall(Act(c, ws[0]), Act(d, ws[0]), k, ws[1..]);
    }
  }

  /** Wherever it is placed, the call ends with the period that is there without it or
      with the one it computes from that. */
  lemma InsertedCall(c: Core, ws: seq<Atomic>, j: nat, t: nat, k: Kind)
    requires OnlyWrites(ws)
    requires j <= |ws| && k != Toggle
    ensures Reached(k, ActAll(c, ws).period, ActAll(c, Insert(ws, j, ByCall(t, k))).period)
  {
    var op, before, after := ByCall(t, k), ws[..j], ws[j..];
    var d := ActAll(c, before);
    assert ws == before + after;
    ActConcat(c, before, after);
    ActConcat(c, before, [op] + after);
    assert Insert(ws, j, op) == before + ([op] + after);
    assert ([op] + after)[1..] == after;
    ExtraCall(d, Act(d, op), k, after);
  }

  // ---- The bad states are reachable ----

  ghost predicate Reachable(n: nat, s: State) {
    exists acts :: Runs(Initial(n), acts) && After(Initial(n), acts) == s
  }

  lemma ThenReachable(n: nat, s: State, a: Action)
    requires Reachable(n, s) && Enabled(s, a)
    ensures Reachable(n, Do(s, a))
  {
    var acts :| Runs(Initial(n), acts) && After(Initial(n), acts) == s;
    StepThen(s, a, []);
    assert [a] + [] == [a];
    RunsConcat(Initial(n), acts, [a]);
    assert Runs(Initial(n), acts + [a]) && After(Initial(n), acts + [a]) == Do(s, a);
  }

  /** Client t starts a call and makes its first step. */
  lemma CallReachable(n: nat, s: State, t: nat, call: Call) returns (s': State)
    requires Reachable(n, s) && Enabled(s, Begin(t, call)) && s.regLock.Free?
    requires call.Locked? ==> s.appLock.Free?
    ensures Reachable(n, s') && s' == Do(Do(s, Begin(t, call)), Client(t))
  {
    var s1 := Do(s, Begin(t, call));
    ThenReachable(n, s, Begin(t, call));
    ThenReachable(n, s1, Client(t));
    s' := Do(s1, Client(t));
  }

  predicate TornStore(s: State, t: nat) {
    && t < |s.clients| && s.clients[t].Stores? && Enabled(s, Client(t))
    && Torn(s.core, s.clients[t].kind, s.clients[t].v)
  }

  /** In Manual mode at 1000 ms, client 0 has read for an increase; the others are idle. */
  lemma AfterFirstRead(n: nat) returns (s: State)
    requires n >= 2
    ensures Reachable(n, s) && s.core == INITIAL.(mode := MANUAL) && s.reg == Samples && s.regLock.Free?
    ensures s.appLock == ByClient(0) && s.clients == seq(n, _ => Idle)[0 := Stores(Inc, 1050)]
  {
    var s0 := Initial(n);
    assert Runs(s0, []) && After(s0, []) == s0;
    s := CallReachable(n, s0, 1, DirectMode(MANUAL));
    s := CallReachable(n, s, 0, Locked(Inc));
    ThenReachable(n, s, Client(0));
    s := Do(s, Client(0));
  }

  lemma CommitsThen(s: State, a: Action, rest: seq<Action>)
    requires Enabled(s, a) && Runs(Do(s, a), rest)
    ensures Runs(s, [a] + rest) && After(s, [a] + rest) == After(Do(s, a), rest)
    ensures forall m :: ModeStays(s, [a] + rest, m) <==> s.core.mode == m && ModeStays(Do(s, a), rest, m)
    ensures Commits(s, [a] + rest) == Commit(s, a) + Commits(Do(s, a), rest)
  {
    StepThen(s, a, rest);
    assert ([a] + rest)[1..] == rest;
  }

  /** A direct write of 2000 then lands in the increase, which stores 1050: no place
      for the increase gives that. */
  lemma LostUpdateIsReachable(n: nat) returns (s: State, win: seq<Action>)
    requires n >= 2
    ensures Reachable(n, s) && |s.clients| == n && s.clients[0] == Stores(Inc, 1050) && UpToDate(s.core, Inc, 1050)
    ensures Runs(s, win) && WithoutClient(0, win) && TornStore(After(s, win), 0)
    ensures ModeStays(s, win, MANUAL) && Commits(s, win) == [SetPeriod(1, 2000)]
    ensures !Explained(s.core, Commits(s, win), ByCall(0, Inc), Do(After(s, win), Client(0)).core)
  {
    s := AfterFirstRead(n);
    win := [Begin(1, DirectPeriod(2000))] + ([Client(1)] + ([Client(1)] + []));
    var s1 := Do(s, win[0]);
    var s2 := Do(s1, win[1]);
    CommitsThen(s2, Client(1), []);
    CommitsThen(s1, Client(1), [Client(1)] + []);
    CommitsThen(s, win[0], [Client(1)] + ([Client(1)] + []));
    ReachableInv(n, s);
    ExplainedIffNotTorn(s, 0, win);
  }

  lemma ReachableInv(n: nat, s: State)
    requires Reachable(n, s)
    ensures Inv(s)
  {
    var acts :| Runs(Initial(n), acts) && After(Initial(n), acts) == s;
    ReachableStates(n, acts);
  }

  /** A pass that read mode 1 is overtaken by a switch to Manual: the manual value is not safe. */
  lemma StalePassIsReachable(n: nat) returns (s: State)
    requires n >= 1
    ensures Reachable(n, s) && s.core == INITIAL.(mode := MANUAL) && s.reg == Senses
    ensures s.regLock.Free? && s.appLock.Free? && s.clients == seq(n, _ => Idle)
    ensures !ManualValueSticks(s)
  {
    var s0 := Initial(n);
    assert Runs(s0, []) && After(s0, []) == s0;
    ThenReachable(n, s0, RegulatorStep(0));
    s := CallReachable(n, Do(s0, RegulatorStep(0)), 0, DirectMode(MANUAL));
    ReachableInv(n, s);
    ManualValueSticksIff(s);
  }

  /** The stale pass then lands in an increase. */
  lemma TornByPass(n: nat) returns (s: State)
    requires n >= 1
    ensures Reachable(n, s) && TornStore(s, 0) && s.core.period == 50 && s.clients[0].v == 1050
  {
    s := StalePassIsReachable(n);
    s := CallReachable(n, s, 0, Locked(Inc));
    ThenReachable(n, s, Client(0));
    s := PassReachable(n, Do(s, Client(0)));
  }

  /** A hot reading and the write of it. */
  lemma PassReachable(n: nat, s: State) returns (s': State)
    requires Reachable(n, s) && s.reg.Senses? && s.regLock.Free? && s.core.period != 50
    ensures Reachable(n, s') && s'.core.mode == s.core.mode && s'.core.period == 50
    ensures s'.regLock.Free? && s'.appLock == s.appLock && s'.clients == s.clients
  {
    var a := RegulatorStep(0);
    ThenReachable(n, s, a);
    var s1 := Do(s, a);
    ThenReachable(n, s1, a);
    var s2 := Do(s1, a);
    ThenReachable(n, s2, a);
    s' := Do(s2, a);
  }

  // ---- What a sequential execution amounts to ----

  function Count(k: Kind, ops: seq<Atomic>): nat {
    if ops == [] then 0
    else (if ops[0].ByCall? && ops[0].kind == k then 1 else 0) + Count(k, ops[1..])
  }

  /** The decreases whose guard passes. */
  function EffectiveDecs(c: Core, ops: seq<Atomic>): nat
    decreases ops
  {
    if ops == [] then 0
    else (if ops[0].ByCall? && ops[0].kind == Dec && c.period > GAP_PERIOD_MS then 1 else 0)
         + EffectiveDecs(Act(c, ops[0]), ops[1..])
  }

  predicate PeriodCalls(ops: seq<Atomic>) {
    forall i :: 0 <= i < |ops| ==> ops[i].ByCall? && ops[i].kind != Toggle
  }

  /** In Manual mode, increases and decreases sum up, and the period never reaches 0. */
  lemma {:induction false} ManualTally(c: Core, ops: seq<Atomic>)
    requires c.mode == MANUAL && c.period > 0
    requires PeriodCalls(ops)
    requires c.period + GAP_PERIOD_MS * Count(Inc, ops) < U32
    ensures ActAll(c, ops).mode == MANUAL && ActAll(c, ops).period > 0
    ensures ActAll(c, ops).period
            == c.period + GAP_PERIOD_MS * Count(Inc, ops) - GAP_PERIOD_MS * EffectiveDecs(c, ops)
    decreases ops
  {
    if ops != [] {
      forall i | 0 <= i < |ops[1..]| ensures ops[1..][i] == ops[i + 1] {}
      ManualTally(Act(c, ops[0]), ops[1..]);
    }
  }

  // ---- Runs of increase, decrease and toggle calls ----

  predicate NoDirect(acts: seq<Action>)
    decreases acts
  {
    acts == [] || ((acts[0].Begin? ==> acts[0].call.Locked?) && NoDirect(acts[1..]))
  }

  /** No direct write is under way, and what a pending store would change is up to date. */
  predicate Fresh(s: State) {
    forall t :: 0 <= t < |s.clients| ==> FreshAt(s.core, s.clients[t])
  }

  predicate FreshAt(c: Core, pc: Pc) {
    match pc
    case SetsMode(_) => false
    case SetsPeriod(_) => false
    case Stores(k, v) => k == Toggle || c.mode == MANUAL ==> UpToDate(c, k, v)
    case _ => true
  }

  /** A stale pass: it changes the period in Manual mode while a period call is between
      its read and its store. */
  predicate Interferes(s: State, a: Action) {
    && a.RegulatorStep? && s.reg.StoresAuto? && s.core.mode == MANUAL && s.reg.v != s.core.period
    && exists t :: 0 <= t < |s.clients| && s.clients[t].Stores? && s.clients[t].kind != Toggle
  }

  predicate Uninterrupted(s: State, acts: seq<Action>)
    requires Runs(s, acts)
    decreases acts
  {
    acts == [] || (!Interferes(s, acts[0]) && Uninterrupted(Do(s, acts[0]), acts[1..]))
  }

  lemma StepStaysFresh(s: State, a: Action)
    requires Inv(s) && Fresh(s) && Enabled(s, a) && (a.Begin? ==> a.call.Locked?) && !Interferes(s, a)
    ensures Fresh(Do(s, a))
  {
    match a
    case Begin(_, _) =>
    case Client(t) =>
      if s.clients[t].Stores? {
        assert HoldsApp(s.clients[t]);
        forall u | 0 <= u < |s.clients| && u != t ensures !HoldsApp(s.clients[u]) {}
      }
    case RegulatorStep(_) =>
      forall u | 0 <= u < |s.clients| ensures FreshAt(Do(s, a).core, s.clients[u]) {
        assert FreshAt(s.core, s.clients[u]);
      }
  }

  lemma StepCommits(s: State, a: Action)
    requires Inv(s) && Fresh(s) && Enabled(s, a)
    ensures IsStore(s, a) ==> !Torn(s.core, s.clients[a.t].kind, s.clients[a.t].v)
    ensures Same(ActAll(s.core, Commit(s, a)), Do(s, a).core)
  {
    if a.Client? {
      assert FreshAt(s.core, s.clients[a.t]);
    }
    if Commit(s, a) != [] {
      assert Commit(s, a) == [Commit(s, a)[0]];
      ActOne(s.core, Commit(s, a)[0]);
    }
  }

  /** Increase, decrease and toggle calls are linearizable: with no direct write and no
      stale pass, no store is torn, and executing the calls and passes one at a time, in
      the order of their last access to the kernel, gives the run's mode and period. */
  lemma {:induction false} CallsAreAtomic(s: State, acts: seq<Action>)
    requires Inv(s) && Fresh(s) && Runs(s, acts) && NoDirect(acts) && Uninterrupted(s, acts)
    ensures Fresh(After(s, acts)) && Untorn(s, acts)
    ensures Same(ActAll(s.core, Commits(s, acts)), After(s, acts).core)
    decreases acts
  {
    if acts != [] {
      var a, s' := acts[0], Do(s, acts[0]);
      StepInv(s, a);
      StepStaysFresh(s, a);
      StepCommits(s, a);
      CallsAreAtomic(s', acts[1..]);
      CommitsInTurn(s.core, s'.core, Commit(s, a), Commits(s', acts[1..]));
    }
  }

  lemma CommitsInTurn(c: Core, d: Core, a: seq<Atomic>, b: seq<Atomic>)
    requires Same(ActAll(c, a), d)
    ensures Same(ActAll(c, a + b), ActAll(d, b))
  {
    ActConcat(c, a, b);
    SameActs(ActAll(c, a), d, b);
  }

  /** In particular when there is no automatic write at all. */
  lemma {:induction false} NoPassNoInterruption(s: State, acts: seq<Action>)
    requires Runs(s, acts) && AutoWrites(Trace(s, acts)) == 0
    ensures Uninterrupted(s, acts)
    decreases acts
  {
    if acts != [] {
      assert Trace(s, acts)[1..] == Trace(Do(s, acts[0]), acts[1..]);
      NoPassNoInterruption(Do(s, acts[0]), acts[1..]);
    }
  }

  /** While the mode stays Manual and nothing else writes, only increases and decreases
      take effect. */
  lemma {:induction false} ManualCommits(s: State, acts: seq<Action>)
    requires Inv(s) && Fresh(s) && Runs(s, acts) && NoDirect(acts)
    requires ModeStays(s, acts, MANUAL) && AutoWrites(Trace(s, acts)) == 0
    ensures PeriodCalls(Commits(s, acts))
    decreases acts
  {
    if acts != [] {
      var a, s' := acts[0], Do(s, acts[0]);
      assert Trace(s, acts)[1..] == Trace(s', acts[1..]);
      assert ModeStays(s', acts[1..], MANUAL);
      StepInv(s, a);
      StepStaysFresh(s, a);
      ManualCommits(s', acts[1..]);
      StepInManual(s, a);
    }
  }

  lemma StepInManual(s: State, a: Action)
    requires Inv(s) && Fresh(s) && Enabled(s, a) && !EventOf(s, a).AutoWrite?
    requires s.core.mode == MANUAL == Do(s, a).core.mode
    ensures PeriodCalls(Commit(s, a))
  {
    if a.Client? {
      assert FreshAt(s.core, s.clients[a.t]);
    }
  }

  /** Concurrent increases and decreases in Manual mode, from any number of threads: the
      period ends at its first value plus 50 for each increase minus 50 for each decrease
      whose guard passed, and is never 0. */
  lemma ManualRun(s: State, acts: seq<Action>)
    requires Inv(s) && Fresh(s) && Runs(s, acts) && NoDirect(acts)
    requires ModeStays(s, acts, MANUAL) && !InFlight(s)
    requires s.core.period + GAP_PERIOD_MS * Count(Inc, Commits(s, acts)) < U32
    ensures var ops := Commits(s, acts);
            && After(s, acts).core.period
               == s.core.period + GAP_PERIOD_MS * Count(Inc, ops) - GAP_PERIOD_MS * EffectiveDecs(s.core, ops)
            && After(s, acts).core.period > 0
  {
    StaleWrites(s, acts);
    NoPassNoInterruption(s, acts);
    CallsAreAtomic(s, acts);
    ManualCommits(s, acts);
    ManualTally(s.core, Commits(s, acts));
  }

  // ---- Toggles ----

  /** The mode is written by toggles only, and a pending toggle is up to date. */
  predicate TogglesRule(s: State) {
    forall t :: 0 <= t < |s.clients| ==>
      && !s.clients[t].SetsMode?
      && (s.clients[t].Stores? && s.clients[t].kind == Toggle ==> s.clients[t].v == Flip(s.core.mode))
  }

  predicate NoDirectMode(acts: seq<Action>)
    decreases acts
  {
    acts == [] || ((acts[0].Begin? ==> !acts[0].call.DirectMode?) && NoDirectMode(acts[1..]))
  }

  /** The mode after n toggles. */
  function Flipped(mode: int, n: nat): int { if n == 0 then mode else 1 - Flipped(mode, n - 1) }

  lemma StepKeepsRule(s: State, a: Action)
    requires Inv(s) && TogglesRule(s) && Enabled(s, a) && (a.Begin? ==> !a.call.DirectMode?)
    ensures TogglesRule(Do(s, a))
  {
    if a.Client? && s.clients[a.t].Stores? {
      assert HoldsApp(s.clients[a.t]);
      forall u | 0 <= u < |s.clients| && u != a.t ensures !HoldsApp(s.clients[u]) {}
    }
  }

  lemma StepFlips(s: State, a: Action)
    requires Inv(s) && TogglesRule(s) && Enabled(s, a)
    ensures Do(s, a).core.mode == Flipped(s.core.mode, Count(Toggle, Commit(s, a)))
  {
    var ops := Commit(s, a);
    assert ops != [] ==> ops[1..] == [];
  }

  lemma StepToggles(s: State, a: Action)
    requires Inv(s) && TogglesRule(s) && Enabled(s, a) && (a.Begin? ==> !a.call.DirectMode?)
    ensures Inv(Do(s, a)) && TogglesRule(Do(s, a))
    ensures Do(s, a).core.mode == Flipped(s.core.mode, Count(Toggle, Commit(s, a)))
  {
    StepInv(s, a);
    StepKeepsRule(s, a);
    StepFlips(s, a);
  }

  lemma {:induction false} CountConcat(k: Kind, a: seq<Atomic>, b: seq<Atomic>)
    ensures Count(k, a + b) == Count(k, a) + Count(k, b)
    decreases a
  {
    if a == [] {
      assert a + b == b;
    } else {
      assert (a + b)[1..] == a[1..] + b;
      CountConcat(k, a[1..], b);
    }
  }

  lemma {:induction false} FlippedTwice(mode: int, n: nat, more: nat)
    ensures Flipped(Flipped(mode, n), more) == Flipped(mode, n + more)
  {
    if more > 0 {
      FlippedTwice(mode, n, more - 1);
    }
  }

  lemma {:induction false} FlippedIsParity(mode: int, n: nat)
    ensures Flipped(mode, n) == if n % 2 == 0 then mode else 1 - mode
  {
    if n > 0 {
      FlippedIsParity(mode, n - 1);
    }
  }

  lemma FlippedOn(mode: int, a: seq<Atomic>, b: seq<Atomic>)
    ensures Flipped(Flipped(mode, Count(Toggle, a)), Count(Toggle, b)) == Flipped(mode, Count(Toggle, a + b))
  {
    CountConcat(Toggle, a, b);
    FlippedTwice(mode, Count(Toggle, a), Count(Toggle, b));
  }

  lemma {:induction false} ModeFlips(s: State, acts: seq<Action>)
    requires Inv(s) && TogglesRule(s) && Runs(s, acts) && NoDirectMode(acts)
    ensures After(s, acts).core.mode == Flipped(s.core.mode, Count(Toggle, Commits(s, acts)))
    decreases acts
  {
    if acts != [] {
      var a, s' := acts[0], Do(s, acts[0]);
      StepToggles(s, a);
      ModeFlips(s', acts[1..]);
      FlippedOn(s.core.mode, Commit(s, a), Commits(s', acts[1..]));
    }
  }

  /** As long as nobody writes the mode directly, it flips by the parity of the toggles
      carried out, torn calls, direct periods and automatic passes notwithstanding. */
  lemma ToggleParity(s: State, acts: seq<Action>)
    requires Inv(s) && TogglesRule(s) && Runs(s, acts) && NoDirectMode(acts)
    ensures After(s, acts).core.mode
            == if Count(Toggle, Commits(s, acts)) % 2 == 0 then s.core.mode else 1 - s.core.mode
  {
    ModeFlips(s, acts);
    FlippedIsParity(s.core.mode, Count(Toggle, Commits(s, acts)));
  }

  // ---- Each call takes effect once, as what it is ----

  /** What a call of thread t is to do. */
  function Meant(t: nat, call: Call): Atomic {
    match call
    case DirectMode(m) => SetMode(t, m)
    case DirectPeriod(p) => SetPeriod(t, p)
    case Locked(k) => ByCall(t, k)
  }

  /** The calls that thread t begins. */
  function Begun(t: nat, acts: seq<Action>): seq<Atomic>
    decreases acts
  {
    if acts == [] then []
    else (if acts[0].Begin? && acts[0].t == t then [Meant(t, acts[0].call)] else []) + Begun(t, acts[1..])
  }

  /** The operations of thread t. */
  function By(t: nat, ops: seq<Atomic>): seq<Atomic>
    decreases ops
  {
    if ops == [] then [] else (if !ops[0].ByPass? && ops[0].t == t then [ops[0]] else []) + By(t, ops[1..])
  }

  lemma {:induction false} ByConcat(t: nat, a: seq<Atomic>, b: seq<Atomic>)
    ensures By(t, a + b) == By(t, a) + By(t, b)
    decreases a
  {
    if a == [] {
      assert a + b == b;
    } else {
      var head := if !a[0].ByPass? && a[0].t == t then [a[0]] else [];
      assert (a + b)[1..] == a[1..] + b;
      ByConcat(t, a[1..], b);
      assert head + (By(t, a[1..]) + By(t, b)) == (head + By(t, a[1..])) + By(t, b);
    }
  }

  /** The call of thread t that has not taken effect yet. */
  function Due(s: State, t: nat): seq<Atomic> {
    if t >= |s.clients| then []
    else match s.clients[t]
      case SetsMode(m) => [SetMode(t, m)]
      case SetsPeriod(p) => [SetPeriod(t, p)]
      case AwaitsApp(k) => [ByCall(t, k)]
      case Reads(k) => [ByCall(t, k)]
      case Stores(k, _) => [ByCall(t, k)]
      case _ => []
  }

  lemma StepOnce(s: State, a: Action, t: nat)
    requires Enabled(s, a)
    ensures Due(s, t) + (if a.Begin? && a.t == t then [Meant(t, a.call)] else [])
            == By(t, Commit(s, a)) + Due(Do(s, a), t)
  {
    var ops := Commit(s, a);
    if ops != [] {
      ByOne(t, ops[0]);
      assert ops == [ops[0]];
    }
    if a.Client? && a.t == t {
      OwnStepOnce(s, t);
    }
  }

  lemma ByOne(t: nat, op: Atomic)
    ensures By(t, [op]) == if !op.ByPass? && op.t == t then [op] else []
  {
    assert [op][1..] == [];
  }

  lemma OwnStepOnce(s: State, t: nat)
    requires Enabled(s, Client(t))
    ensures Due(s, t) == Commit(s, Client(t)) + Due(Do(s, Client(t)), t)
    ensures forall i :: 0 <= i < |Commit(s, Client(t))| ==>
              !Commit(s, Client(t))[i].ByPass? && Commit(s, Client(t))[i].t == t
  {}

  /** What a thread's calls did, in order, is what it called for, in order, but for at most
      one call under way: every finished call took effect exactly once, as the operation and
      with the argument it was made with. */
  lemma {:induction false} EachCallOnce(s: State, acts: seq<Action>, t: nat)
    requires Runs(s, acts)
    ensures Due(s, t) + Begun(t, acts) == By(t, Commits(s, acts)) + Due(After(s, acts), t)
    decreases acts
  {
    if acts == [] {
      assert Due(s, t) + [] == [] + Due(s, t);
    } else {
      var a, s' := acts[0], Do(s, acts[0]);
      StepOnce(s, a, t);
      EachCallOnce(s', acts[1..], t);
      ByConcat(t, Commit(s, a), Commits(s', acts[1..]));
      var now := if a.Begin? && a.t == t then [Meant(t, a.call)] else [];
      InTurn(Due(s, t), now, Begun(t, acts[1..]),
             By(t, Commit(s, a)), Due(s', t), By(t, Commits(s', acts[1..])), Due(After(s, acts), t));
    }
  }

  // ---- Each call can finish ----

  /** Who has to step for t to get on: t, or the holder of a lock it needs. */
  function Next(s: State, t: nat): Action
    requires t < |s.clients|
  {
    var u := if s.clients[t].AwaitsApp? && s.appLock.ByClient? then s.appLock.t else t;
    match s.regLock
    case ByRegulator => RegulatorStep(0)
    case ByClient(w) => Client(w)
    case Free => Client(u)
  }

  /** The steps left to whoever holds app_lock against t. */
  function Ahead(s: State, t: nat): nat {
    if s.appLock.ByClient? && s.appLock.t != t && s.appLock.t < |s.clients|
    then 1 + ToIdle(s.clients[s.appLock.t])
    else 0
  }

  lemma NextStep(s: State, t: nat)
    requires Inv(s) && t < |s.clients| && !s.clients[t].Idle?
    ensures Enabled(s, Next(s, t)) && Inv(Do(s, Next(s, t)))
    ensures var s' := Do(s, Next(s, t));
            && |s'.clients| == |s.clients|
            && ToIdle(s'.clients[t]) <= ToIdle(s.clients[t])
            && (ToIdle(s'.clients[t]) == ToIdle(s.clients[t]) ==> Ahead(s', t) <= Ahead(s, t))
            && (ToIdle(s'.clients[t]) == ToIdle(s.clients[t]) && Ahead(s', t) == Ahead(s, t) ==>
                  !s.regLock.Free? && s'.regLock.Free?)
  {
    var a := Next(s, t);
    if s.regLock.Free? && s.clients[t].AwaitsApp? && s.appLock.ByClient? {
      assert HoldsApp(s.clients[s.appLock.t]);
    }
    StepInv(s, a);
  }

  /** From every reachable state, every call under way can finish without a new one. */
  lemma {:induction false} CanFinish(s: State, t: nat) returns (acts: seq<Action>)
    requires Inv(s) && t < |s.clients|
    ensures Runs(s, acts) && After(s, acts).clients != [] && t < |After(s, acts).clients|
    ensures After(s, acts).clients[t].Idle? && Begun(t, acts) == []
    decreases ToIdle(s.clients[t]), Ahead(s, t), !s.regLock.Free?
  {
    acts := [];
    if !s.clients[t].Idle? {
      var a := Next(s, t);
      NextStep(s, t);
      acts := CanFinish(Do(s, a), t);
      CommitsThen(s, a, acts);
      assert ([a] + acts)[1..] == acts;
      acts := [a] + acts;
    }
  }

  lemma BegunFirst(t: nat, call: Call, rest: seq<Action>)
    requires Begun(t, rest) == []
    ensures Begun(t, [Begin(t, call)] + rest) == [Meant(t, call)]
  {
    assert ([Begin(t, call)] + rest)[1..] == rest;
  }

  predicate IsArgument(call: Call) {
    match call
    case DirectMode(m) => -0x8000_0000 <= m < 0x8000_0000
    case DirectPeriod(p) => 0 <= p < 0x1_0000_0000
    case Locked(_) => true
  }

  /** A run that starts with this call of t and ends with t idle, the call having taken
      effect once, as what it is. */
  predicate Completes(s: State, t: nat, call: Call, acts: seq<Action>) {
    && acts != [] && acts[0] == Begin(t, call) && Runs(s, acts)
    && t < |After(s, acts).clients| && After(s, acts).clients[t].Idle?
    && By(t, Commits(s, acts)) == [Meant(t, call)]
  }

  /** From every reachable state, an idle client can make any call, with any argument of
      its type, and the call can return. */
  lemma EveryCallCompletes(s: State, t: nat, call: Call)
    requires Inv(s) && t < |s.clients| && s.clients[t].Idle? && IsArgument(call)
    ensures exists acts :: Completes(s, t, call, acts)
  {
    var a := Begin(t, call);
    StepInv(s, a);
    var rest := CanFinish(Do(s, a), t);
    CommitsThen(s, a, rest);
    var acts := [a] + rest;
    assert acts[1..] == rest;
    EachCallOnce(s, acts, t);
    BegunFirst(t, call, rest);
    NothingDue(Due(s, t), Begun(t, acts), By(t, Commits(s, acts)), Due(After(s, acts), t));
    assert Completes(s, t, call, acts);
  }
}
