/**
  Writes whose calls overlap may take effect in either order. A write is known by what it
  does, by its place in the order of landing, and by how many had landed when it began:
  those must stay before it, the others need not. With this freedom too, the calls in
  Manual mode that no sequential order explains are characterised exactly.
 */
module RegulatorOverlap {
  import opened CInt
  import opened Regulator
  import opened RegulatorRuns
  import opened RegulatorLinear

  /** since: how many had landed when the call, or the pass, began. */
  datatype Landing = Landing(op: Atomic, since: nat)

  /** For each client and for the regulator, how many had landed when it last began. */
  datatype Begun = Begun(calls: map<nat, nat>, pass: nat)

  const BEFORE := Begun(map[], 0)

  function SinceOf(b: Begun, a: Action): nat {
    match a
    case RegulatorStep(_) => b.pass
    case Client(t) => if t in b.calls then b.calls[t] else 0
    case Begin(t, _) => 0
  }

  function Note(b: Begun, s: State, a: Action, landed: nat): Begun {
    match a
    case Begin(t, _) => b.(calls := b.calls[t := landed])
    case RegulatorStep(_) => if s.reg.Samples? then b.(pass := landed) else b
    case Client(_) => b
  }

  /** What lands in one step. */
  function Landed(s: State, a: Action, b: Begun): (ls: seq<Landing>)
    requires Enabled(s, a)
    ensures |ls| == |Commit(s, a)| <= 1
  {
    var ops := Commit(s, a);
    if ops == [] then [] else [Landing(ops[0], SinceOf(b, a))]
  }

  function Landings(s: State, acts: seq<Action>, b: Begun, landed: nat): seq<Landing>
    requires Runs(s, acts)
    decreases acts
  {
    if acts == [] then []
    else
      var now := Landed(s, acts[0], b);
      now + Landings(Do(s, acts[0]), acts[1..], Note(b, s, acts[0], landed), landed + |now|)
  }

  predicate Noted(b: Begun, landed: nat) { b.pass <= landed && forall t :: t in b.calls ==> b.calls[t] <= landed }

  /** Nothing begins after it has landed. */
  predicate InTime(ls: seq<Landing>, landed: nat) { forall i :: 0 <= i < |ls| ==> ls[i].since <= landed + i }

  lemma NoteInTime(b: Begun, s: State, a: Action, landed: nat, more: nat)
    requires Noted(b, landed)
    ensures SinceOf(b, a) <= landed && Noted(Note(b, s, a, landed), landed + more)
  {}

  lemma InTimeOn(ls: seq<Landing>, more: seq<Landing>, landed: nat)
    requires InTime(ls, landed) && InTime(more, landed + |ls|)
    ensures InTime(ls + more, landed)
  {}

  lemma {:induction false} LandingsInTime(s: State, acts: seq<Action>, b: Begun, landed: nat)
    requires Runs(s, acts) && Noted(b, landed)
    ensures InTime(Landings(s, acts, b, landed), landed)
    decreases acts
  {
    if acts != [] {
      var a, now := acts[0], Landed(s, acts[0], b);
      NoteInTime(b, s, a, landed, |now|);
      LandingsInTime(Do(s, a), acts[1..], Note(b, s, a, landed), landed + |now|);
      InTimeOn(now, Landings(Do(s, a), acts[1..], Note(b, s, a, landed), landed + |now|), landed);
    }
  }

  // ---- Orders ----

  /** A permutation of the indices below n. */
  predicate Permutes(order: seq<nat>, n: nat) {
    && (forall x :: 0 <= x < |order| ==> order[x] < n)
    && (forall x, y :: 0 <= x < y < |order| ==> order[x] != order[y])
    && (forall i :: 0 <= i < n ==> i in order)
  }

  lemma PlaceOf(order: seq<nat>, n: nat, i: nat) returns (x: nat)
    requires Permutes(order, n) && i < n
    ensures x < |order| && order[x] == i
  {
    assert i in order;
    x :| 0 <= x < |order| && order[x] == i;
  }

  /** The order of landing. */
  function AsLanded(n: nat): seq<nat> { seq(n, i => i) }

  lemma AsLandedPermutes(n: nat)
    ensures Permutes(AsLanded(n), n)
  {
    forall i | 0 <= i < n ensures i in AsLanded(n) {
      assert AsLanded(n)[i] == i;
    }
  }

  /** What had landed before another began stays before it. */
  predicate Respects(ls: seq<Landing>, order: seq<nat>) {
    && (forall x :: 0 <= x < |order| ==> order[x] < |ls|)
    && (forall x, y :: 0 <= x < y < |order| ==> ls[order[x]].since <= order[y])
  }

  function Arranged(ls: seq<Landing>, order: seq<nat>): (ops: seq<Atomic>)
    requires forall x :: 0 <= x < |order| ==> order[x] < |ls|
    ensures |ops| == |order| && forall x :: 0 <= x < |order| ==> ops[x] == ls[order[x]].op
  {
    seq(|order|, x requires 0 <= x < |order| => ls[order[x]].op)
  }

  predicate OpsAre(ls: seq<Landing>, ops: seq<Atomic>) {
    |ls| == |ops| && forall i :: 0 <= i < |ops| ==> ls[i].op == ops[i]
  }

  lemma OpsAreOn(ls: seq<Landing>, ops: seq<Atomic>, more: seq<Landing>, moreOps: seq<Atomic>)
    requires OpsAre(ls, ops) && OpsAre(more, moreOps)
    ensures OpsAre(ls + more, ops + moreOps)
  {}

  /** In the order of landing, these are the commits. */
  lemma {:induction false} LandedInOrder(s: State, acts: seq<Action>, b: Begun, landed: nat)
    requires Runs(s, acts)
    ensures OpsAre(Landings(s, acts, b, landed), Commits(s, acts))
    decreases acts
  {
    if acts != [] {
      var a, now := acts[0], Landed(s, acts[0], b);
      LandedInOrder(Do(s, a), acts[1..], Note(b, s, a, landed), landed + |now|);
      OpsAreOn(now, Commit(s, a), Landings(Do(s, a), acts[1..], Note(b, s, a, landed), landed + |now|),
               Commits(Do(s, a), acts[1..]));
    }
  }

  /** Some order of the writes that respects time, with the call at a place among them,
      gives this outcome. */
  ghost predicate ExplainedInTime(c: Core, ls: seq<Landing>, op: Atomic, outcome: Core) {
    exists order, j :: ArrangedHidden(c, ls, order, j, op, outcome)
  }

  predicate ArrangedHidden(c: Core, ls: seq<Landing>, order: seq<nat>, j: nat, op: Atomic, outcome: Core) {
    Permutes(order, |ls|) && Respects(ls, order) && Hidden(c, Arranged(ls, order), j, op, outcome)
  }

  // ---- Who wrote last, in Manual mode ----

  predicate Sets(op: Atomic) { (op.SetPeriod? && op.p > 0) || op.ByPass? }

  function Value(op: Atomic): int
    requires Sets(op)
  {
    if op.SetPeriod? then op.p else op.v
  }

  /** Writes that leave Manual mode alone. */
  predicate StayManual(ops: seq<Atomic>) {
    forall i :: 0 <= i < |ops| ==> !ops[i].ByCall? && (ops[i].SetMode? ==> ops[i].m != AUTO)
  }

  lemma {:induction false} NoneSets(c: Core, ops: seq<Atomic>)
    requires c.mode == MANUAL && StayManual(ops) && forall i :: 0 <= i < |ops| ==> !Sets(ops[i])
    ensures Same(ActAll(c, ops), c)
    decreases ops
  {
    if ops != [] {
      NoneSets(Act(c, ops[0]), ops[1..]);
    }
  }

  lemma {:induction false} StaysManual(c: Core, ops: seq<Atomic>)
    requires c.mode == MANUAL && StayManual(ops)
    ensures ActAll(c, ops).mode == MANUAL
    decreases ops
  {
    if ops != [] {
      StaysManual(Act(c, ops[0]), ops[1..]);
    }
  }

  lemma LastSets(c: Core, ops: seq<Atomic>, x: nat)
    requires c.mode == MANUAL && StayManual(ops) && x < |ops| && Sets(ops[x])
    requires forall y :: x < y < |ops| ==> !Sets(ops[y])
    ensures ActAll(c, ops).mode == MANUAL && ActAll(c, ops).period == Value(ops[x])
  {
    var d := ActAll(c, ops[..x]);
    StaysManual(c, ops[..x]);
    assert ops == ops[..x] + ([ops[x]] + ops[x + 1..]);
    ActConcat(c, ops[..x], [ops[x]] + ops[x + 1..]);
    assert ([ops[x]] + ops[x + 1..])[1..] == ops[x + 1..];
    NoneSets(Act(d, ops[x]), ops[x + 1..]);
  }

  lemma FindLast(ops: seq<Atomic>, i: nat) returns (x: nat)
    requires i < |ops| && Sets(ops[i])
    ensures x < |ops| && Sets(ops[x]) && forall y :: x < y < |ops| ==> !Sets(ops[y])
  {
    x := |ops| - 1;
    while !Sets(ops[x])
      invariant i <= x < |ops|
      invariant forall y :: x < y < |ops| ==> !Sets(ops[y])
      decreases x
    {
      x := x - 1;
    }
  }

  /** A period call placed among such writes: it is hidden by the last write of the period
      if that comes after it, and computes from it otherwise. */
  lemma CallAmongWrites(c: Core, ops: seq<Atomic>, j: nat, t: nat, k: Kind, x: nat)
    requires c.mode == MANUAL && StayManual(ops) && k != Toggle && j <= |ops|
    requires x < |ops| && Sets(ops[x]) && forall y :: x < y < |ops| ==> !Sets(ops[y])
    ensures var r, p := ActAll(c, Insert(ops, j, ByCall(t, k))), Value(ops[x]);
            r.mode == MANUAL && r.period == if j <= x || FromRead(k, p) == 0 then p else FromRead(k, p)
  {
    var op, before, after := ByCall(t, k), ops[..j], ops[j..];
    var d := ActAll(c, before);
    StaysManual(c, before);
    assert Insert(ops, j, op) == before + ([op] + after);
    ActConcat(c, before, [op] + after);
    assert ([op] + after)[1..] == after;
    if j <= x {
      LastSets(Act(d, op), after, x - j);
    } else {
      LastSets(c, before, x);
      NoneSets(Act(d, op), after);
    }
  }

  // ---- The condition ----

  /** No other write of the period began after write i had landed. */
  predicate CanBeLast(ls: seq<Landing>, i: nat) {
    i < |ls| && Sets(ls[i].op) && forall j :: 0 <= j < |ls| && Sets(ls[j].op) ==> ls[j].since <= i
  }

  /** Write i, made last, explains a call that stores v: the call before it or after it. */
  predicate Yields(ls: seq<Landing>, i: nat, k: Kind, v: int)
    requires k != Toggle
  {
    CanBeLast(ls, i) && (v == Value(ls[i].op) || v == FromRead(k, Value(ls[i].op)))
  }

  /** Not write i, and begun before write i landed (early), or after. */
  predicate IsPicked(ls: seq<Landing>, i: nat, early: bool, j: nat)
    requires j < |ls|
  {
    j != i && (ls[j].since <= i) == early
  }

  /** Their indices below m. */
  function Pick(ls: seq<Landing>, i: nat, early: bool, m: nat): seq<nat>
    requires m <= |ls|
  {
    if m == 0 then []
    else Pick(ls, i, early, m - 1) + if IsPicked(ls, i, early, m - 1) then [m - 1] else []
  }

  /** q lists, in rising order, exactly those indices below m. */
  predicate Lists(ls: seq<Landing>, i: nat, early: bool, q: seq<nat>, m: nat)
    requires m <= |ls|
  {
    && (forall x :: 0 <= x < |q| ==> q[x] < m && IsPicked(ls, i, early, q[x]))
    && (forall x, y :: 0 <= x < y < |q| ==> q[x] < q[y])
    && (forall j :: 0 <= j < m && IsPicked(ls, i, early, j) ==> j in q)
  }

  lemma {:induction false} Picked(ls: seq<Landing>, i: nat, early: bool, m: nat)
    requires m <= |ls|
    ensures Lists(ls, i, early, Pick(ls, i, early, m), m)
  {
    if m > 0 {
      Picked(ls, i, early, m - 1);
      ListsOn(ls, i, early, Pick(ls, i, early, m - 1), m - 1);
    }
  }

  lemma ListsOn(ls: seq<Landing>, i: nat, early: bool, q: seq<nat>, m: nat)
    requires m < |ls| && Lists(ls, i, early, q, m)
    ensures Lists(ls, i, early, q + if IsPicked(ls, i, early, m) then [m] else [], m + 1)
  {
    var r := q + if IsPicked(ls, i, early, m) then [m] else [];
    forall j | 0 <= j < m + 1 && IsPicked(ls, i, early, j) ensures j in r {
      assert j < m ==> j in q;
      assert j == m ==> r[|q|] == m;
    }
  }

  /** Write i as late as it can be. */
  function Latest(ls: seq<Landing>, i: nat): seq<nat> {
    Pick(ls, i, true, |ls|) + [i] + Pick(ls, i, false, |ls|)
  }

  lemma LatestPermutes(ls: seq<Landing>, i: nat)
    requires i < |ls|
    ensures Permutes(Latest(ls, i), |ls|)
  {
    Picked(ls, i, true, |ls|);
    Picked(ls, i, false, |ls|);
    var early, late := Pick(ls, i, true, |ls|), Pick(ls, i, false, |ls|);
    forall j | 0 <= j < |ls| ensures j in early + [i] + late {
      assert j == i || IsPicked(ls, i, true, j) || IsPicked(ls, i, false, j);
    }
    forall x, y | 0 <= x < y < |early + [i] + late| ensures (early + [i] + late)[x] != (early + [i] + late)[y] {
      LatestAt(ls, i, x);
      LatestAt(ls, i, y);
    }
  }

  lemma LatestAt(ls: seq<Landing>, i: nat, x: nat)
    requires i < |ls| && x < |Latest(ls, i)|
    ensures var early, late, n := Pick(ls, i, true, |ls|), Pick(ls, i, false, |ls|), |Pick(ls, i, true, |ls|)|;
            Latest(ls, i)[x] == if x < n then early[x] else if x == n then i else late[x - n - 1]
  {}

  lemma LatestRespects(ls: seq<Landing>, i: nat)
    requires InTime(ls, 0) && i < |ls|
    ensures Respects(ls, Latest(ls, i))
  {
    Picked(ls, i, true, |ls|);
    Picked(ls, i, false, |ls|);
    var n, order := |Pick(ls, i, true, |ls|)|, Latest(ls, i);
    forall x | 0 <= x < |order| ensures order[x] < |ls| && (if x <= n then ls[order[x]].since <= i else i < order[x]) {
      LatestAt(ls, i, x);
    }
    forall x, y | 0 <= x < y < |order| ensures ls[order[x]].since <= order[y] {
      LatestAt(ls, i, x);
      LatestAt(ls, i, y);
    }
  }

  /** So arranged, write i is the last one of the period. */
  lemma LatestIsLast(ls: seq<Landing>, i: nat, x: nat)
    requires CanBeLast(ls, i) && x == |Pick(ls, i, true, |ls|)|
    requires forall y :: 0 <= y < |Latest(ls, i)| ==> Latest(ls, i)[y] < |ls|
    ensures var ops := Arranged(ls, Latest(ls, i));
            x < |ops| && ops[x] == ls[i].op && forall y :: x < y < |ops| ==> !Sets(ops[y])
  {
    Picked(ls, i, false, |ls|);
    var order := Latest(ls, i);
    forall y | x < y < |order| ensures !Sets(ls[order[y]].op) {
      assert order[y] == Pick(ls, i, false, |ls|)[y - x - 1];
    }
  }

  /** Writes that leave Manual mode alone. */
  predicate ManualLandings(ls: seq<Landing>) {
    forall j :: 0 <= j < |ls| ==> !ls[j].op.ByCall? && (ls[j].op.SetMode? ==> ls[j].op.m != AUTO)
  }

  lemma YieldsExplains(c: Core, ls: seq<Landing>, i: nat, t: nat, k: Kind, v: int, outcome: Core)
    requires c.mode == MANUAL && InTime(ls, 0) && ManualLandings(ls) && k != Toggle && v > 0 && Yields(ls, i, k, v)
    requires outcome.mode == MANUAL && outcome.period == v
    ensures ExplainedInTime(c, ls, ByCall(t, k), outcome)
  {
    var order := Latest(ls, i);
    LatestPermutes(ls, i);
    LatestRespects(ls, i);
    var x := |Pick(ls, i, true, |ls|)|;
    LatestIsLast(ls, i, x);
    var ops := Arranged(ls, order);
    var j := if v == Value(ls[i].op) then 0 else |ops|;
    CallAmongWrites(c, ops, j, t, k, x);
    assert ArrangedHidden(c, ls, order, j, ByCall(t, k), outcome);
  }

  lemma ExplainedYields(c: Core, ls: seq<Landing>, w: nat, t: nat, k: Kind, v: int, outcome: Core) returns (i: nat)
    requires c.mode == MANUAL && InTime(ls, 0) && ManualLandings(ls) && k != Toggle && v > 0
    requires outcome.period == v && w < |ls| && Sets(ls[w].op)
    requires ExplainedInTime(c, ls, ByCall(t, k), outcome)
    ensures Yields(ls, i, k, v)
  {
    var order, j :| ArrangedHidden(c, ls, order, j, ByCall(t, k), outcome);
    var ops := Arranged(ls, order);
    var at := PlaceOf(order, |ls|, w);
    var x := FindLast(ops, at);
    i := order[x];
    CallAmongWrites(c, ops, j, t, k, x);
    forall u | 0 <= u < |ls| && Sets(ls[u].op) ensures ls[u].since <= i {
      var y := PlaceOf(order, |ls|, u);
      assert Sets(ops[y]);
    }
  }

  /** While the mode stays Manual, no write sets another. */
  lemma {:induction false} WindowStaysManual(s: State, win: seq<Action>, t: nat)
    requires Inv(s) && Runs(s, win) && WithoutClient(t, win) && ModeStays(s, win, MANUAL)
    requires t < |s.clients| && s.clients[t].Stores?
    ensures StayManual(Commits(s, win))
    decreases win
  {
    if win != [] {
      var a, s' := win[0], Do(s, win[0]);
      WithoutRest(t, win);
      StepInv(s, a);
      OneWindow(s, a, t);
      assert ModeStays(s', win[1..], MANUAL);
      WindowStaysManual(s', win[1..], t);
      assert StayManual(Commit(s, a));
    }
  }

  /** A call that has just read, and a stretch in Manual mode up to its store: allowing the
      writes in between to change places where their calls overlap, some sequential order
      gives the outcome if and only if the store is not torn, or one of the writes that can
      be last wrote what the call stores or what the call would have computed it from. */
  lemma ExplainedInTimeIff(s: State, t: nat, win: seq<Action>)
    requires Inv(s) && t < |s.clients| && s.clients[t].Stores?
    requires UpToDate(s.core, s.clients[t].kind, s.clients[t].v)
    requires Runs(s, win) && WithoutClient(t, win) && Enabled(After(s, win), Client(t))
    requires ModeStays(s, win, MANUAL)
    ensures var k, v, ls := s.clients[t].kind, s.clients[t].v, Landings(s, win, BEFORE, 0);
            ExplainedInTime(s.core, ls, ByCall(t, k), Do(After(s, win), Client(t)).core)
            <==> !Torn(After(s, win).core, k, v) || exists i :: 0 <= i < |ls| && Yields(ls, i, k, v)
  {
    var k, v, ls, ws := s.clients[t].kind, s.clients[t].v, Landings(s, win, BEFORE, 0), Commits(s, win);
    var c, at, outcome := s.core, After(s, win), Do(After(s, win), Client(t)).core;
    LandingsInTime(s, win, BEFORE, 0);
    LandedInOrder(s, win, BEFORE, 0);
    ExplainedIffNotTorn(s, t, win);
    WindowStaysManual(s, win, t);
    WindowWrites(s, win, t);
    if !Torn(at.core, k, v) {
      ExplainedAsLanded(c, ls, ws, ByCall(t, k), outcome);
    } else {
      TornOutcome(s, t, win);
      var w := SomethingSets(s, t, win);
      YieldsIff(c, ls, w, t, k, v, outcome);
    }
  }

  lemma ExplainedAsLanded(c: Core, ls: seq<Landing>, ops: seq<Atomic>, op: Atomic, outcome: Core)
    requires InTime(ls, 0) && OpsAre(ls, ops) && Explained(c, ops, op, outcome)
    ensures ExplainedInTime(c, ls, op, outcome)
  {
    var j :| Hidden(c, ops, j, op, outcome);
    var order := AsLanded(|ls|);
    AsLandedPermutes(|ls|);
    assert Arranged(ls, order) == ops;
    assert ArrangedHidden(c, ls, order, j, op, outcome);
  }

  lemma YieldsIff(c: Core, ls: seq<Landing>, w: nat, t: nat, k: Kind, v: int, outcome: Core)
    requires c.mode == MANUAL && InTime(ls, 0) && ManualLandings(ls) && k != Toggle && v > 0
    requires outcome.mode == MANUAL && outcome.period == v && w < |ls| && Sets(ls[w].op)
    ensures ExplainedInTime(c, ls, ByCall(t, k), outcome) <==> exists i :: 0 <= i < |ls| && Yields(ls, i, k, v)
  {
    if exists i :: 0 <= i < |ls| && Yields(ls, i, k, v) {
      var i :| 0 <= i < |ls| && Yields(ls, i, k, v);
      YieldsExplains(c, ls, i, t, k, v, outcome);
    }
    if ExplainedInTime(c, ls, ByCall(t, k), outcome) {
      var i := ExplainedYields(c, ls, w, t, k, v, outcome);
    }
  }

  lemma TornOutcome(s: State, t: nat, win: seq<Action>)
    requires Inv(s) && t < |s.clients| && s.clients[t].Stores?
    requires Runs(s, win) && WithoutClient(t, win) && Enabled(After(s, win), Client(t))
    requires Torn(After(s, win).core, s.clients[t].kind, s.clients[t].v)
    ensures var outcome := Do(After(s, win), Client(t)).core; outcome.mode == MANUAL && outcome.period == s.clients[t].v
  {
    WindowWrites(s, win, t);
  }

  /** A torn store follows a write of the period. */
  lemma SomethingSets(s: State, t: nat, win: seq<Action>) returns (w: nat)
    requires Inv(s) && t < |s.clients| && s.clients[t].Stores?
    requires UpToDate(s.core, s.clients[t].kind, s.clients[t].v)
    requires Runs(s, win) && WithoutClient(t, win) && ModeStays(s, win, MANUAL)
    requires Torn(After(s, win).core, s.clients[t].kind, s.clients[t].v)
    ensures w < |Commits(s, win)| && Sets(Commits(s, win)[w])
  {
    var ws := Commits(s, win);
    WindowStaysManual(s, win, t);
    assert Covered(s.core, [], 0, s, t);
    WindowCovered(s, win, s.core, [], t);
    assert [] + ws == ws;
    if forall i :: 0 <= i < |ws| ==> !Sets(ws[i]) {
      NoneSets(s.core, ws);
    }
    w :| 0 <= w < |ws| && Sets(ws[w]);
  }

  /** The lost update of one direct write is explained by no order at all. */
  lemma LostInAnyOrder(n: nat) returns (s: State, win: seq<Action>)
    requires n >= 2
    ensures Reachable(n, s) && |s.clients| == n && s.clients[0] == Stores(Inc, 1050)
    ensures Runs(s, win) && WithoutClient(0, win) && TornStore(After(s, win), 0)
    ensures !ExplainedInTime(s.core, Landings(s, win, BEFORE, 0), ByCall(0, Inc), Do(After(s, win), Client(0)).core)
  {
    s, win := LostUpdateIsReachable(n);
    ReachableInv(n, s);
    LandedInOrder(s, win, BEFORE, 0);
    WindowWrites(s, win, 0);
    ExplainedInTimeIff(s, 0, win);
    var ls := Landings(s, win, BEFORE, 0);
    assert |ls| == 1 && ls[0].op == SetPeriod(1, 2000);
    assert !Yields(ls, 0, Inc, 1050);
  }

  /** Two overlapping direct writes, 1050 and then 2000, in an increase that stores 1050:
      torn, and explained once the two writes change places. */
  lemma TornButExplained(n: nat) returns (s: State, win: seq<Action>)
    requires n >= 3
    ensures Reachable(n, s) && |s.clients| == n && s.clients[0] == Stores(Inc, 1050)
    ensures Runs(s, win) && WithoutClient(0, win) && TornStore(After(s, win), 0)
    ensures ExplainedInTime(s.core, Landings(s, win, BEFORE, 0), ByCall(0, Inc), Do(After(s, win), Client(0)).core)
  {
    s := AfterFirstRead(n);
    ReachableInv(n, s);
    win := OverlapWindow(s);
    ExplainedInTimeIff(s, 0, win);
    var ls := Landings(s, win, BEFORE, 0);
    assert Sets(ls[0].op) && Sets(ls[1].op);
    assert Yields(ls, 0, Inc, 1050);
  }

  lemma OverlapWindow(s: State) returns (win: seq<Action>)
    requires |s.clients| >= 3 && s.clients[0] == Stores(Inc, 1050) && s.clients[1] == s.clients[2] == Idle
    requires s.core.mode == MANUAL && s.regLock.Free?
    ensures Runs(s, win) && WithoutClient(0, win) && ModeStays(s, win, MANUAL) && TornStore(After(s, win), 0)
    ensures Landings(s, win, BEFORE, 0) == [Landing(SetPeriod(2, 1050), 0), Landing(SetPeriod(1, 2000), 0)]
  {
    var begin1, begin2 := Begin(1, DirectPeriod(2000)), Begin(2, DirectPeriod(1050));
    var s1 := Do(s, begin1);
    var b1 := Note(BEFORE, s, begin1, 0);
    win := BothLand(Do(s1, begin2), Note(b1, s1, begin2, 0));
    OneStep(s1, begin2, win, b1, 0);
    win := [begin2] + win;
    OneStep(s, begin1, win, BEFORE, 0);
    win := [begin1] + win;
  }

  lemma BothLand(s: State, b: Begun) returns (win: seq<Action>)
    requires |s.clients| >= 3 && s.clients[0] == Stores(Inc, 1050) && s.core.mode == MANUAL && s.regLock.Free?
    requires s.clients[1] == SetsPeriod(2000) && s.clients[2] == SetsPeriod(1050)
    requires 1 in b.calls && 2 in b.calls && b.calls[1] == b.calls[2] == 0
    ensures Runs(s, win) && WithoutClient(0, win) && ModeStays(s, win, MANUAL) && TornStore(After(s, win), 0)
    ensures Landings(s, win, b, 0) == [Landing(SetPeriod(2, 1050), 0), Landing(SetPeriod(1, 2000), 0)]
  {
    var s1 := AfterWrite(s, 2, 1050);
    win := [];
    assert TornStore(AfterWrite(s1, 1, 2000), 0);
    WriteLands(s1, 1, 2000, win, b, 1);
    win := [Client(1)] + ([Client(1)] + win);
    WriteLands(s, 2, 1050, win, b, 0);
    win := [Client(2)] + ([Client(2)] + win);
  }

  lemma OneStep(s: State, a: Action, rest: seq<Action>, b: Begun, landed: nat)
    requires a != Client(0) && WithoutClient(0, rest) && Enabled(s, a) && Runs(Do(s, a), rest)
    requires s.core.mode == MANUAL && ModeStays(Do(s, a), rest, MANUAL)
    ensures var win, now := [a] + rest, Landed(s, a, b);
            && Runs(s, win) && After(s, win) == After(Do(s, a), rest)
            && WithoutClient(0, win) && ModeStays(s, win, MANUAL)
            && Landings(s, win, b, landed) == now + Landings(Do(s, a), rest, Note(b, s, a, landed), landed + |now|)
  {
    StepThen(s, a, rest);
    assert ([a] + rest)[1..] == rest;
  }

  function AfterWrite(s: State, t: nat, p: int): State
    requires t < |s.clients|
  {
    At(s.(core := Applied(s.core, p)), t, Idle)
  }

  /** A direct write that is not held up. */
  lemma WriteLands(s: State, t: nat, p: int, rest: seq<Action>, b: Begun, landed: nat)
    requires 0 < t < |s.clients| && s.clients[t] == SetsPeriod(p) && p > 0 && s.core.mode == MANUAL && s.regLock.Free?
    requires Runs(AfterWrite(s, t, p), rest) && WithoutClient(0, rest) && ModeStays(AfterWrite(s, t, p), rest, MANUAL)
    ensures var win, s' := [Client(t)] + ([Client(t)] + rest), AfterWrite(s, t, p);
            && Runs(s, win) && After(s, win) == After(s', rest) && WithoutClient(0, win) && ModeStays(s, win, MANUAL)
            && Landings(s, win, b, landed)
               == [Landing(SetPeriod(t, p), SinceOf(b, Client(t)))] + Landings(s', rest, b, landed + 1)
  {
    var s1 := Do(s, Client(t));
    assert Do(s1, Client(t)) == AfterWrite(s, t, p);
    OneStep(s1, Client(t), rest, b, landed + 1);
    OneStep(s, Client(t), [Client(t)] + rest, b, landed);
  }
}
