/**
 The blocking client: one native object shared by any number of threads, guarded by the
 lifecycle mutex and the atomic stop flag. Every thread that owns a reference is a program
 counter, every atomic action of the code is one `Act`, and a run is any interleaving.
 */
module ClientCore {
  import opened Options

  type Tid = nat

  datatype Lifecycle = New | Ready | Connecting | Finished

  /** What native Core is doing for `connect`; other threads reach it only in
      Reachable and Running. Running starts when `connect_run` has announced the start. */
  datatype Phase = Idle | SettingUp | Reachable | Running | Done

  /** The operations that take the lifecycle mutex. `announces` distinguishes
      `connect_with_started` from `connect`. */
  datatype Op = Evaluate | Credentials | Connect(announces: bool)

  /** Where a thread that owns a client reference stands. */
  datatype Pc =
    | Resting
    | Locked(op: Op)            // holds the mutex, has not looked at the lifecycle yet
    | Evaluating                // inside native evaluate, mutex held
    | Crediting                 // inside native provide_credentials, mutex held
    | Marked(announces: bool)   // wrote Connecting, stop flag not cleared yet, mutex held
    | Prepared(announces: bool) // prepare_connect has returned
    | InConnect                 // inside native connect
    | Leaving                   // native connect returned, Finished not written yet
    | Armed                     // won the swap, native stop not entered yet
    | Stopping(applied: bool)   // inside native stop
    | Controlling               // inside any other native call

  /** The last reference is gone once teardown leaves Alive. */
  datatype Teardown = Alive | Swapping | Calling | Freeing | Freed

  datatype Shared = Shared(
    lifecycle: Lifecycle,
    mutex: Option<Tid>,
    stopRequested: bool,
    teardown: Teardown,
    phase: Phase,
    registered: bool,        // native Core still holds the started callback
    // history
    connector: Option<Tid>,  // the thread that wrote Connecting
    fired: nat,              // times a started callback ran
    connects: nat,           // entries into native connect
    cleared: bool,           // prepare_connect has reset the stop flag
    swaps: nat,              // swaps that found the flag false
    stopCalls: nat,          // entries into native stop
    delivered: bool,         // a native stop reached Core while it was reachable
    early: nat,              // native stops Core ignored because it was not reachable yet
    frees: nat
  )

  datatype State = State(g: Shared, pc: map<Tid, Pc>)

  datatype Act =
    | Lock(op: Op)
    | Decide
    | EvaluateReturns(ok: bool)
    | CredentialsReturn
    | ClearStop
    | EnterConnect
    | SetupDone
    | Notify
    | ConnectEnds
    | FinalNotify
    | Reset
    | StopSwap
    | StopEnter
    | StopEffect
    | StopExit
    | ControlEnter
    | ControlExit

  datatype Action =
    | Clone(t: Tid, u: Tid)
    | DropClone(t: Tid)
    | Do(t: Tid, act: Act)
    | DropSwap
    | DropStopExit
    | Free

  predicate Listening(phase: Phase) {
    phase.Reachable? || phase.Running?
  }

  /** May a thread standing at `p` take this atomic step now? */
  predicate CanDo(g: Shared, p: Pc, act: Act) {
    match act
    case Lock(_) => p.Resting? && g.mutex.None?
    case Decide => p.Locked?
    case EvaluateReturns(_) => p.Evaluating?
    case CredentialsReturn => p.Crediting?
    case ClearStop => p.Marked?
    case EnterConnect => p.Prepared?
    case SetupDone => p.InConnect? && g.phase.SettingUp?
    case Notify => p.InConnect? && g.phase.Reachable?
    case ConnectEnds => p.InConnect? && (g.phase.SettingUp? || Listening(g.phase))
    case FinalNotify => p.InConnect? && g.phase.Done?
    case Reset => p.Leaving? && g.mutex.None?
    case StopSwap => p.Resting?
    case StopEnter => p.Armed?
    case StopEffect => p == Stopping(false)
    case StopExit => p == Stopping(true)
    case ControlEnter => p.Resting?
    case ControlExit => p.Controlling?
  }

  /** `notify_connect_started`: runs the callback if it is still registered, and forgets it. */
  function Fire(g: Shared): Shared {
    if g.registered then g.(registered := false, fired := g.fired + 1) else g
  }

  /** The match on the lifecycle inside the critical section of each operation. */
  function Decided(g: Shared, t: Tid, op: Op): (Shared, Pc) {
    match op
    case Evaluate =>
      if g.lifecycle.New? || g.lifecycle.Ready? then (g, Evaluating) else (g.(mutex := None), Resting)
    case Credentials =>
      if g.lifecycle.Ready? then (g, Crediting) else (g.(mutex := None), Resting)
    case Connect(announces) =>
      if g.lifecycle.Ready? then (g.(lifecycle := Connecting, connector := Some(t)), Marked(announces))
      else (g.(mutex := None, fired := if announces then g.fired + 1 else g.fired), Resting)
  }

  /** The effect of one atomic step of thread `t`. */
  function Did(g: Shared, t: Tid, p: Pc, act: Act): (Shared, Pc)
    requires CanDo(g, p, act)
  {
    match act
    case Lock(op) => (g.(mutex := Some(t)), Locked(op))
    case Decide => Decided(g, t, p.op)
    case EvaluateReturns(ok) => (g.(mutex := None, lifecycle := if ok then Ready else g.lifecycle), Resting)
    case CredentialsReturn => (g.(mutex := None), Resting)
    case ClearStop => (g.(mutex := None, stopRequested := false, cleared := true), Prepared(p.announces))
    case EnterConnect => (g.(connects := g.connects + 1, phase := SettingUp, registered := p.announces), InConnect)
    case SetupDone => (g.(phase := Reachable), p)
    case Notify => (Fire(g).(phase := Running), p)
    case ConnectEnds => (g.(phase := Done), p)
    case FinalNotify => (Fire(g), Leaving)
    case Reset => (g.(lifecycle := Finished), Resting)
    case StopSwap =>
      if g.stopRequested then (g, Resting) else (g.(stopRequested := true, swaps := g.swaps + 1), Armed)
    case StopEnter => (g.(stopCalls := g.stopCalls + 1), Stopping(false))
    case StopEffect =>
      (g.(delivered := g.delivered || Listening(g.phase),
          early := if g.phase.Idle? || g.phase.SettingUp? then g.early + 1 else g.early), Stopping(true))
    case StopExit => (g, Resting)
    case ControlEnter => (g, Controlling)
    case ControlExit => (g, Resting)
  }

  predicate Enabled(s: State, a: Action) {
    match a
    case Clone(t, u) => t in s.pc && u !in s.pc
    case DropClone(t) => t in s.pc && s.pc[t].Resting?
    case Do(t, act) => t in s.pc && CanDo(s.g, s.pc[t], act)
    case DropSwap => s.g.teardown.Swapping?
    case DropStopExit => s.g.teardown.Calling?
    case Free => s.g.teardown.Freeing?
  }

  /** `Drop for Inner`, one atomic step at a time. */
  function Torn(g: Shared, a: Action): Shared
    requires a.DropSwap? || a.DropStopExit? || a.Free?
  {
    match a
    case DropSwap =>
      if g.stopRequested then g.(teardown := Freeing)
      else g.(stopRequested := true, swaps := g.swaps + 1, stopCalls := g.stopCalls + 1, teardown := Calling)
    case DropStopExit => g.(teardown := Freeing)
    case Free => g.(frees := g.frees + 1, teardown := Freed)
  }

  function Apply(s: State, a: Action): State
    requires Enabled(s, a)
  {
    match a
    case Clone(_, u) => s.(pc := s.pc[u := Resting])
    case DropClone(t) =>
      var rest := s.pc - {t};
      State(if rest == map[] then s.g.(teardown := Swapping) else s.g, rest)
    case Do(t, act) =>
      var (g, p) := Did(s.g, t, s.pc[t], act);
      State(g, s.pc[t := p])
    case _ => s.(g := Torn(s.g, a))
  }

  const FRESH: Shared :=
    Shared(New, None, false, Alive, Idle, false, None, 0, 0, false, 0, 0, false, 0, 0)

  const INITIAL: State := State(FRESH, map[0 := Resting])

  // ---------------------------------------------------------------- runs

  ghost predicate Possible(s: State, run: seq<Action>)
    decreases |run|
  {
    run == [] || (Enabled(s, run[0]) && Possible(Apply(s, run[0]), run[1..]))
  }

  ghost function Exec(s: State, run: seq<Action>): State
    requires Possible(s, run)
    decreases |run|
  {
    if run == [] then s else Exec(Apply(s, run[0]), run[1..])
  }

  // ---------------------------------------------------------------- invariant

  predicate Holds(p: Pc) {
    p.Locked? || p.Evaluating? || p.Crediting? || p.Marked?
  }

  predicate Busy(p: Pc) {
    p.Marked? || p.Prepared? || p.InConnect? || p.Leaving?
  }

  predicate InCore(phase: Phase) {
    phase.SettingUp? || Listening(phase)
  }

  /** What the lifecycle says about the native phase. */
  predicate LifecycleInv(g: Shared) {
    && (g.lifecycle.New? || g.lifecycle.Ready? ==> g.connects == 0 && g.phase.Idle? && !g.cleared && g.connector.None?)
    && (g.lifecycle.Connecting? ==> g.connector.Some?)
    && (g.lifecycle.Finished? ==> g.connects == 1 && g.phase.Done? && g.cleared)
    && g.connects <= 1
    && (InCore(g.phase) ==> g.lifecycle.Connecting?)
    && (!g.phase.Idle? ==> g.cleared)
  }

  /** How often the flag was won, and what came of it. */
  predicate CountInv(g: Shared) {
    && (!g.cleared ==> g.swaps == (if g.stopRequested then 1 else 0))
    && (g.cleared ==> g.swaps <= (if g.stopRequested then 2 else 1))
    && g.frees == (if g.teardown.Freed? then 1 else 0)
    && g.stopCalls <= g.swaps && (g.stopRequested ==> g.swaps > 0)
  }

  /** What the shared cells alone satisfy. */
  predicate SharedInv(g: Shared) {
    LifecycleInv(g) && CountInv(g)
  }

  /** What a thread's position says about the shared cells. */
  predicate ThreadInv(g: Shared, t: Tid, p: Pc) {
    && (Holds(p) <==> g.mutex == Some(t))
    && (Busy(p) ==> g.connector == Some(t) && g.lifecycle.Connecting?)
    && (p.Evaluating? ==> g.lifecycle.New? || g.lifecycle.Ready?)
    && (p.Crediting? ==> g.lifecycle.Ready?)
    && (p.Marked? ==> g.connects == 0 && g.phase.Idle? && !g.cleared)
    && (p.Prepared? ==> g.connects == 0 && g.phase.Idle? && g.cleared)
    && (p.InConnect? ==> g.connects == 1 && !g.phase.Idle? && g.cleared)
    && (p.Leaving? ==> g.connects == 1 && g.phase.Done? && g.cleared)
    && (g.connector == Some(t) && InCore(g.phase) ==> p.InConnect?)
  }

  ghost function ArmedIn(pc: map<Tid, Pc>): set<Tid> {
    set t | t in pc && pc[t].Armed?
  }

  ghost predicate Inv(s: State) {
    && SharedInv(s.g)
    && (forall t :: t in s.pc ==> ThreadInv(s.g, t, s.pc[t]))
    && (s.g.mutex.Some? ==> s.g.mutex.value in s.pc)
    && (InCore(s.g.phase) ==> s.g.connector.value in s.pc)
    && (s.g.teardown.Alive? <==> s.pc != map[])
    && |ArmedIn(s.pc)| + s.g.stopCalls == s.g.swaps
  }

  lemma ArmedUpdate(pc: map<Tid, Pc>, t: Tid, p: Pc)
    ensures |ArmedIn(pc[t := p])| == |ArmedIn(pc)|
                                     - (if t in pc && pc[t].Armed? then 1 else 0) + (if p.Armed? then 1 else 0)
  {
    var before, after := ArmedIn(pc), ArmedIn(pc[t := p]);
    if p.Armed? {
      assert after == before + {t};
    } else {
      assert after == before - {t};
    }
  }

  /** One step of `t` keeps the shared facts. */
  lemma OwnLifecycle(g: Shared, t: Tid, p: Pc, act: Act)
    requires CanDo(g, p, act) && LifecycleInv(g) && ThreadInv(g, t, p)
    ensures LifecycleInv(Did(g, t, p, act).0)
  {
    if act.Decide? {
    } else if act.Lock? {
    }
  }

  lemma OwnCounts(g: Shared, t: Tid, p: Pc, act: Act)
    requires CanDo(g, p, act) && CountInv(g) && (p.Marked? ==> !g.cleared) && (p.Armed? ==> g.stopCalls < g.swaps)
    ensures CountInv(Did(g, t, p, act).0)
  {
    if act.Decide? {
    } else if act.Lock? {
    }
  }

  /** One step of `t` keeps its own facts. */
  lemma OwnThread(g: Shared, t: Tid, p: Pc, act: Act)
    requires CanDo(g, p, act) && SharedInv(g) && ThreadInv(g, t, p)
    ensures ThreadInv(Did(g, t, p, act).0, t, Did(g, t, p, act).1)
  {
    if act.Decide? {
    } else if act.Lock? {
    }
  }

  /** One step of `t` leaves the mutex, the connector and the teardown to their owners. */
  lemma OwnCells(g: Shared, t: Tid, p: Pc, act: Act)
    requires CanDo(g, p, act) && ThreadInv(g, t, p)
    ensures var g' := Did(g, t, p, act).0;
            && g'.teardown == g.teardown
            && (g'.mutex == g.mutex || g'.mutex == None || g'.mutex == Some(t))
            && (InCore(g'.phase) ==> g'.connector == Some(t) || (InCore(g.phase) && g'.connector == g.connector))
  {
    if act.Decide? {
    } else if act.Lock? {
    }
  }

  /** One step of `t` keeps the account of won swaps and native stops. */
  lemma OwnAccount(g: Shared, t: Tid, p: Pc, act: Act)
    requires CanDo(g, p, act)
    ensures var (g', p') := Did(g, t, p, act);
            g'.swaps - g'.stopCalls - (g.swaps - g.stopCalls)
            == (if p'.Armed? then 1 else 0) - (if p.Armed? then 1 else 0)
  {
    if act.Decide? {
    } else if act.Lock? {
    }
  }

  /** One step of `t` does not disturb what any other thread relies on. */
  lemma OtherStep(g: Shared, t: Tid, p: Pc, act: Act, u: Tid, q: Pc)
    requires CanDo(g, p, act) && SharedInv(g) && ThreadInv(g, t, p)
    requires u != t && ThreadInv(g, u, q)
    ensures ThreadInv(Did(g, t, p, act).0, u, q)
  {
    if act.Decide? {
    } else if act.Lock? {
    }
  }

  lemma ArmedCounts(pc: map<Tid, Pc>, t: Tid)
    requires t in pc && pc[t].Armed?
    ensures |ArmedIn(pc)| > 0
  {
    assert t in ArmedIn(pc);
  }

  lemma DoPreserves(s: State, t: Tid, act: Act)
    requires Inv(s) && Enabled(s, Do(t, act))
    ensures Inv(Apply(s, Do(t, act)))
  {
    var p := s.pc[t];
    if p.Armed? { ArmedCounts(s.pc, t); }
    OwnLifecycle(s.g, t, p, act);
    assert ThreadInv(s.g, t, p);
    OwnCounts(s.g, t, p, act);
    OwnThread(s.g, t, p, act);
    OwnCells(s.g, t, p, act);
    OwnAccount(s.g, t, p, act);
    var (g', p') := Did(s.g, t, p, act);
    forall u | u in s.pc && u != t
      ensures ThreadInv(g', u, s.pc[u])
    {
      OtherStep(s.g, t, p, act, u, s.pc[u]);
    }
    ArmedUpdate(s.pc, t, p');
    assert t in s.pc[t := p'];
  }

  lemma ReferencePreserves(s: State, a: Action)
    requires Inv(s) && Enabled(s, a) && (a.Clone? || a.DropClone?)
    ensures Inv(Apply(s, a))
  {
    var s' := Apply(s, a);
    assert ThreadInv(s.g, a.t, s.pc[a.t]);
    assert ArmedIn(s'.pc) == ArmedIn(s.pc);
    if a.Clone? {
      assert a.t in s'.pc;
    }
  }

  lemma TeardownPreserves(s: State, a: Action)
    requires Inv(s) && Enabled(s, a) && (a.DropSwap? || a.DropStopExit? || a.Free?)
    ensures Inv(Apply(s, a))
  {
    assert ArmedIn(s.pc) == {};
  }

  lemma Preserves(s: State, a: Action)
    requires Inv(s) && Enabled(s, a)
    ensures Inv(Apply(s, a))
  {
    match a
    case Clone(_, _) => ReferencePreserves(s, a);
    case DropClone(_) => ReferencePreserves(s, a);
    case Do(t, act) => DoPreserves(s, t, act);
    case _ => TeardownPreserves(s, a);
  }

  lemma InitialHolds()
    ensures Inv(INITIAL)
  {
    assert ArmedIn(INITIAL.pc) == {};
    assert 0 in INITIAL.pc;
  }

  lemma {:induction false} RunKeepsInv(s: State, run: seq<Action>)
    requires Inv(s) && Possible(s, run)
    ensures Inv(Exec(s, run))
    decreases |run|
  {
    if run != [] {
      Preserves(s, run[0]);
      RunKeepsInv(Apply(s, run[0]), run[1..]);
    }
  }

  // ---------------------------------------------------------------- what every run keeps

  function Rank(l: Lifecycle): nat {
    match l case New => 0 case Ready => 1 case Connecting => 2 case Finished => 3
  }

  lemma RankForward(g: Shared, t: Tid, p: Pc, act: Act)
    requires CanDo(g, p, act) && ThreadInv(g, t, p)
    ensures Rank(g.lifecycle) <= Rank(Did(g, t, p, act).0.lifecycle)
  {
  }

  lemma StepForward(s: State, a: Action)
    requires Inv(s) && Enabled(s, a)
    ensures Rank(s.g.lifecycle) <= Rank(Apply(s, a).g.lifecycle)
  {
    if a.Do? { RankForward(s.g, a.t, s.pc[a.t], a.act); }
  }

  /** The lifecycle never moves backwards, between any two points of any run. */
  lemma {:induction false} LifecycleForward(s: State, run: seq<Action>)
    requires Inv(s) && Possible(s, run)
    ensures Rank(s.g.lifecycle) <= Rank(Exec(s, run).g.lifecycle)
    decreases |run|
  {
    if run != [] {
      StepForward(s, run[0]);
      Preserves(s, run[0]);
      LifecycleForward(Apply(s, run[0]), run[1..]);
    }
  }

  /** Once the flag has been cleared for `connect`, a stop request is never taken back. */
  lemma RequestStays(s: State, a: Action)
    requires Inv(s) && Enabled(s, a) && s.g.cleared && s.g.stopRequested
    ensures Apply(s, a).g.cleared && Apply(s, a).g.stopRequested
  {
    if a.Do? { assert ThreadInv(s.g, a.t, s.pc[a.t]); }
  }

  predicate Exclusive(p: Pc) {
    p.Evaluating? || p.Crediting? || p.InConnect?
  }

  /** In every run at most one thread is inside native evaluate, credentials or connect,
      and native connect is entered at most once. */
  lemma SerializedNativeCalls(run: seq<Action>, t: Tid, u: Tid)
    requires Possible(INITIAL, run)
    ensures var s := Exec(INITIAL, run);
            && s.g.connects <= 1
            && (t in s.pc && u in s.pc && Exclusive(s.pc[t]) && Exclusive(s.pc[u]) ==> t == u)
  {
    InitialHolds();
    RunKeepsInv(INITIAL, run);
    var s := Exec(INITIAL, run);
    if t in s.pc && u in s.pc {
      assert ThreadInv(s.g, t, s.pc[t]) && ThreadInv(s.g, u, s.pc[u]);
    }
  }

  /** Native stop is entered at most twice, whatever the callers and the final drop do:
      at most once before the flag is cleared. */
  lemma AtMostTwoNativeStops(run: seq<Action>)
    requires Possible(INITIAL, run)
    ensures Exec(INITIAL, run).g.stopCalls <= 2
    ensures !Exec(INITIAL, run).g.cleared ==> Exec(INITIAL, run).g.stopCalls <= 1
  {
    InitialHolds();
    RunKeepsInv(INITIAL, run);
  }

  /** Native free happens at most once and is the last thing that happens: nobody is inside
      the native object, and no action at all is possible afterwards. */
  lemma FreeIsLast(run: seq<Action>, a: Action)
    requires Possible(INITIAL, run)
    ensures var s := Exec(INITIAL, run);
            s.g.frees <= 1 && (s.g.frees == 1 ==> s.pc == map[] && !Enabled(s, a))
  {
    InitialHolds();
    RunKeepsInv(INITIAL, run);
  }

  function StepsToFree(teardown: Teardown): nat {
    match teardown
    case Alive => 4
    case Swapping => 3
    case Calling => 2
    case Freeing => 1
    case Freed => 0
  }

  /** Once the last reference is gone there is exactly one possible action at a time,
      and at most three of them lead to the free. */
  lemma {:induction false} UnreferencedIsFreed(s: State) returns (run: seq<Action>)
    requires Inv(s) && s.pc == map[]
    ensures Possible(s, run) && Exec(s, run).g.frees == 1 && |run| <= StepsToFree(s.g.teardown) <= 3
    ensures forall a :: Enabled(s, a) ==> run != [] && a == run[0]
    decreases StepsToFree(s.g.teardown)
  {
    if s.g.teardown.Freed? {
      run := [];
    } else {
      var a := if s.g.teardown.Swapping? then DropSwap else if s.g.teardown.Calling? then DropStopExit else Free;
      Preserves(s, a);
      var rest := UnreferencedIsFreed(Apply(s, a));
      run := [a] + rest;
      assert run[1..] == rest;
    }
  }

  // ---------------------------------------------------------------- the blocking client can lose a stop

  /** A native stop that some thread still has to make effective. */
  ghost predicate Pending(s: State) {
    exists t :: t in s.pc && (s.pc[t].Armed? || s.pc[t] == Stopping(false))
  }

  /** The flag is set, Core has heard nothing and nobody is about to tell it. */
  ghost predicate Lost(s: State) {
    s.g.cleared && s.g.stopRequested && !s.g.delivered && !Pending(s)
  }

  lemma {:induction false} Append(s: State, run: seq<Action>, a: Action)
    requires Possible(s, run) && Enabled(Exec(s, run), a)
    ensures Possible(s, run + [a]) && Exec(s, run + [a]) == Apply(Exec(s, run), a)
    decreases |run|
  {
    if run == [] {
      assert run + [a] == [a];
    } else {
      Append(Apply(s, run[0]), run[1..], a);
      assert (run + [a])[1..] == run[1..] + [a];
    }
  }

  ghost predicate Attainable(s: State) {
    exists run :: Possible(INITIAL, run) && Exec(INITIAL, run) == s
  }

  /** A set of states closed under every action. Scenarios are played out inside an arbitrary
      closed set and instantiated with the attainable states at the end. */
  ghost predicate Closed(within: State -> bool) {
    forall s, a :: within(s) && Enabled(s, a) ==> within(Apply(s, a))
  }

  lemma AttainableIsClosed()
    ensures Attainable(INITIAL) && Closed(Attainable)
  {
    assert Possible(INITIAL, []) && Exec(INITIAL, []) == INITIAL;
    forall s, a | Attainable(s) && Enabled(s, a) ensures Attainable(Apply(s, a)) {
      var run :| Possible(INITIAL, run) && Exec(INITIAL, run) == s;
      Append(INITIAL, run, a);
    }
  }

  lemma Take(within: State -> bool, s: State, a: Action) returns (s': State)
    requires Closed(within) && within(s) && Enabled(s, a)
    ensures within(s') && s' == Apply(s, a)
  {
    s' := Apply(s, a);
  }

  /** Thread 0 evaluates and prepares to connect; thread 1 only holds a reference. */
  lemma PrepareScenario(within: State -> bool) returns (s: State)
    requires Closed(within) && within(INITIAL)
    ensures within(s)
    ensures s == State(FRESH.(lifecycle := Connecting, connector := Some(0), cleared := true),
                       map[0 := Prepared(false), 1 := Resting])
  {
    s := Take(within, INITIAL, Clone(0, 1));
    s := Take(within, s, Do(0, Lock(Evaluate)));
    s := Take(within, s, Do(0, Decide));
    s := Take(within, s, Do(0, EvaluateReturns(true)));
    assert s == State(FRESH.(lifecycle := Ready), map[0 := Resting, 1 := Resting]);
    s := Take(within, s, Do(0, Lock(Connect(false))));
    s := Take(within, s, Do(0, Decide));
    s := Take(within, s, Do(0, ClearStop));
    assert s.pc == map[0 := Prepared(false), 1 := Resting];
  }

  /** The second thread runs a whole stop call while Core is still setting up. */
  lemma EarlyStopScenario(within: State -> bool, s0: State) returns (s: State)
    requires Closed(within) && within(s0)
    requires s0.pc == map[0 := InConnect, 1 := Resting] && s0.g.phase.SettingUp? && !s0.g.stopRequested
    ensures within(s) && s.pc == s0.pc
    ensures s.g == s0.g.(
              stopRequested := true, swaps := s0.g.swaps + 1, stopCalls := s0.g.stopCalls + 1, early := s0.g.early + 1)
  {
    s := Take(within, s0, Do(1, StopSwap));
    s := Take(within, s, Do(1, StopEnter));
    s := Take(within, s, Do(1, StopEffect));
    s := Take(within, s, Do(1, StopExit));
  }

  /** The stop falls between `prepare_connect` and the end of Core's setup, so Core runs on with
      the flag set and no stop heard. */
  lemma LostStopScenario(within: State -> bool) returns (s: State)
    requires Closed(within) && within(INITIAL)
    ensures within(s) && Lost(s) && s.g.early == 1 && s.g.phase.Running?
  {
    s := PrepareScenario(within);
    s := Take(within, s, Do(0, EnterConnect));
    assert s.pc == map[0 := InConnect, 1 := Resting];
    s := EarlyStopScenario(within, s);
    s := Take(within, s, Do(0, SetupDone));
    s := Take(within, s, Do(0, Notify));
    assert s.pc == map[0 := InConnect, 1 := Resting];
  }

  /** The blocking client has a run that loses a stop. */
  lemma BlockingStopCanBeLost() returns (run: seq<Action>)
    ensures Possible(INITIAL, run)
    ensures var s := Exec(INITIAL, run); Lost(s) && s.g.early == 1 && s.g.phase.Running?
  {
    AttainableIsClosed();
    var s := LostStopScenario(Attainable);
    run :| Possible(INITIAL, run) && Exec(INITIAL, run) == s;
  }

  lemma LostStep(s: State, a: Action)
    requires Inv(s) && Enabled(s, a) && Lost(s)
    ensures Lost(Apply(s, a))
  {
    if a.Do? {
      assert ThreadInv(s.g, a.t, s.pc[a.t]);
      assert !s.pc[a.t].Armed? && s.pc[a.t] != Stopping(false);
    }
  }

  /** A lost stop stays lost: no continuation, and no further stop call, reaches the session. */
  lemma {:induction false} LostForever(s: State, run: seq<Action>)
    requires Inv(s) && Lost(s) && Possible(s, run)
    ensures Lost(Exec(s, run))
    decreases |run|
  {
    if run != [] {
      LostStep(s, run[0]);
      Preserves(s, run[0]);
      LostForever(Apply(s, run[0]), run[1..]);
    }
  }

  predicate PastSetup(phase: Phase) {
    Listening(phase) || phase.Done?
  }

  /** A pending stop stays pending until it takes effect. */
  lemma PendingStays(s: State, a: Action, t: Tid)
    requires Enabled(s, a) && t in s.pc && (s.pc[t].Armed? || s.pc[t] == Stopping(false))
    requires a != Do(t, StopEffect)
    ensures Pending(Apply(s, a))
  {
    var s' := Apply(s, a);
    assert t in s'.pc && (s'.pc[t].Armed? || s'.pc[t] == Stopping(false));
  }

  lemma HeardDo(s: State, t: Tid, act: Act)
    requires Inv(s) && Enabled(s, Do(t, act)) && Listening(s.g.phase) && !Lost(s)
    ensures var s' := Apply(s, Do(t, act)); s'.g.phase.Done? || (Listening(s'.g.phase) && !Lost(s'))
  {
    var s' := Apply(s, Do(t, act));
    assert ThreadInv(s.g, t, s.pc[t]);
    CoreCleared(s);
    if s.g.stopRequested && !s.g.delivered {
      var u :| u in s.pc && (s.pc[u].Armed? || s.pc[u] == Stopping(false));
      if u != t || act != StopEffect { PendingStays(s, Do(t, act), u); }
    } else if act.StopSwap? && !s.g.stopRequested {
      assert t in s'.pc && s'.pc[t].Armed?;
    }
  }

  /** While Core is reachable, its connecting thread is there and the flag has been cleared. */
  lemma CoreCleared(s: State)
    requires Inv(s) && InCore(s.g.phase)
    ensures s.g.cleared && s.g.teardown.Alive?
  {
    assert ThreadInv(s.g, s.g.connector.value, s.pc[s.g.connector.value]);
  }

  lemma DoneStays(s: State, a: Action)
    requires Inv(s) && Enabled(s, a) && s.g.phase.Done?
    ensures Apply(s, a).g.phase.Done?
  {
    if a.Do? {
      assert ThreadInv(s.g, a.t, s.pc[a.t]);
      DidForward(s.g, a.t, s.pc[a.t], a.act);
    }
  }

  lemma HeardStep(s: State, a: Action)
    requires Inv(s) && Enabled(s, a)
    requires PastSetup(s.g.phase) && (Lost(s) ==> s.g.phase.Done?)
    ensures PastSetup(Apply(s, a).g.phase) && (Lost(Apply(s, a)) ==> Apply(s, a).g.phase.Done?)
  {
    if s.g.phase.Done? {
      DoneStays(s, a);
    } else if a.Do? {
      HeardDo(s, a.t, a.act);
    } else {
      CoreCleared(s);
      if Pending(s) {
        var t :| t in s.pc && (s.pc[t].Armed? || s.pc[t] == Stopping(false));
        PendingStays(s, a, t);
      }
    }
  }

  /** The converse: unless a stop was already lost when setup ended, every stop requested from
      then on is delivered, about to be delivered, or the session is over. */
  lemma {:induction false} HeardOnceReachable(s: State, run: seq<Action>)
    requires Inv(s) && Possible(s, run) && PastSetup(s.g.phase)
    requires Lost(s) ==> s.g.phase.Done?
    ensures PastSetup(Exec(s, run).g.phase)
    ensures Lost(Exec(s, run)) ==> Exec(s, run).g.phase.Done?
    decreases |run|
  {
    if run != [] {
      HeardStep(s, run[0]);
      Preserves(s, run[0]);
      HeardOnceReachable(Apply(s, run[0]), run[1..]);
    }
  }

  // ---------------------------------------------------------------- exactly when a stop is lost

  ghost function PendingIn(pc: map<Tid, Pc>): set<Tid> {
    set t | t in pc && (pc[t].Armed? || pc[t] == Stopping(false))
  }

  function Owes(p: Pc): nat {
    if p.Armed? || p == Stopping(false) then 1 else 0
  }

  function Heard(g: Shared): nat {
    if g.delivered then 1 else 0
  }

  /** Every won swap is pending, came too early or was heard; and while nothing was heard and
      native connect is not over, each is exactly one of the first two. */
  ghost predicate Accounted(s: State) {
    var owed := |PendingIn(s.pc)| + s.g.early;
    owed + Heard(s.g) <= s.g.swaps && (!s.g.delivered && !s.g.phase.Done? && s.g.teardown.Alive? ==> owed == s.g.swaps)
  }

  lemma PendingUpdate(pc: map<Tid, Pc>, t: Tid, p: Pc)
    requires t in pc
    ensures |PendingIn(pc[t := p])| == |PendingIn(pc)| - Owes(pc[t]) + Owes(p)
  {
    var before, after := PendingIn(pc), PendingIn(pc[t := p]);
    if Owes(p) == 1 {
      assert after == before + {t};
    } else {
      assert after == before - {t};
    }
  }

  lemma AccountDid(g: Shared, t: Tid, p: Pc, act: Act)
    requires CanDo(g, p, act) && ThreadInv(g, t, p)
    ensures var (g', p') := Did(g, t, p, act);
            && Owes(p') + g'.early + Heard(g') - g'.swaps <= Owes(p) + g.early + Heard(g) - g.swaps
            && (g'.delivered || g'.phase.Done? || Owes(p') + g'.early - g'.swaps == Owes(p) + g.early - g.swaps)
  {
    if act.Decide? {
    } else if act.Lock? {
    }
  }

  lemma DidForward(g: Shared, t: Tid, p: Pc, act: Act)
    requires CanDo(g, p, act) && ThreadInv(g, t, p)
    ensures var g' := Did(g, t, p, act).0;
            (g.delivered ==> g'.delivered) && (g.phase.Done? ==> g'.phase.Done?) && g'.teardown == g.teardown
  {
    if act.Decide? {
    } else if act.Lock? {
    }
  }

  lemma AccountStep(s: State, a: Action)
    requires Inv(s) && Enabled(s, a) && Accounted(s)
    ensures Accounted(Apply(s, a))
  {
    var s' := Apply(s, a);
    match a
    case Do(t, act) =>
      assert ThreadInv(s.g, t, s.pc[t]);
      AccountDid(s.g, t, s.pc[t], act);
      DidForward(s.g, t, s.pc[t], act);
      PendingUpdate(s.pc, t, s'.pc[t]);
    case _ =>
      assert PendingIn(s'.pc) == PendingIn(s.pc);
  }

  lemma {:induction false} RunAccounts(s: State, run: seq<Action>)
    requires Inv(s) && Accounted(s) && Possible(s, run)
    ensures Accounted(Exec(s, run))
    decreases |run|
  {
    if run != [] {
      AccountStep(s, run[0]);
      Preserves(s, run[0]);
      RunAccounts(Apply(s, run[0]), run[1..]);
    }
  }

  lemma NobodyPending(s: State)
    ensures Pending(s) <==> |PendingIn(s.pc)| > 0
  {
    if Pending(s) {
      var t :| t in s.pc && (s.pc[t].Armed? || s.pc[t] == Stopping(false));
      assert t in PendingIn(s.pc);
    } else {
      assert PendingIn(s.pc) == {};
    }
  }

  /** In every run, while Core is reachable: a stop is lost exactly when the flag is set and every
      won swap took effect before Core was reachable. */
  lemma LostIffAllEarly(run: seq<Action>)
    requires Possible(INITIAL, run) && Listening(Exec(INITIAL, run).g.phase)
    ensures var s := Exec(INITIAL, run); Lost(s) <==> s.g.stopRequested && s.g.early == s.g.swaps
  {
    InitialHolds();
    assert PendingIn(INITIAL.pc) == {};
    RunKeepsInv(INITIAL, run);
    RunAccounts(INITIAL, run);
    var s := Exec(INITIAL, run);
    CoreCleared(s);
    NobodyPending(s);
  }
}
