/**
 The worker's own lifecycle check and the progress of a cancellation. The check can refuse: when
 the first `connect` future was dropped before the start signal, a second `connect` may pass
 `ensure_connectable`, lose the processor while the whole first session runs and is cleaned up,
 and then win the compare-exchange. These lemmas give that run and say exactly when it happens.
 */
module TokioRaces {
  import opened Options
  import C = ClientCore
  import opened TokioSession
  import opened TokioInvariant
  import opened TokioSafety

  /** A worker that reaches its lifecycle check passes it exactly when it is the client's first
      worker, and there are never more than two. */
  lemma WorkerPassesIffFirst(run: seq<Step>, t: Tid, k: nat)
    requires Possible(INITIAL, run) && HasRole(Exec(INITIAL, run), t, Worker(k, true))
    requires t in Exec(INITIAL, run).core.pc && Exec(INITIAL, run).core.pc[t].Locked?
    ensures var s := Exec(INITIAL, run);
            && Enabled(s, Do(t, C.Decide)) && |s.sess| <= 2
            && (Apply(s, Do(t, C.Decide)).core.pc[t].Marked? <==> k == 0)
  {
    ReachableInv(run);
    assert RoleOk(Exec(INITIAL, run), t, Worker(k, true), Exec(INITIAL, run).core.pc[t]);
  }

  // ---------------------------------------------------------------- without an abandoned connect

  /** A pending `connect` is dropped while it waits for the start signal. */
  predicate Abandons(s: State, e: Step) {
    e.ByFut? && e.fs.DropFuture? && e.f in s.futs && s.futs[e.f].at.AwaitingStart?
  }

  ghost predicate Patient(s: State, run: seq<Step>)
    requires Possible(s, run)
    decreases |run|
  {
    run == [] || (!Abandons(s, run[0]) && Patient(Apply(s, run[0]), run[1..]))
  }

  /** The only session is returned or its `connect` future still holds the setup guard. */
  predicate Attended(s: State) {
    s.sess == [] || (|s.sess| == 1 && (Returned(s.sess[0]) || Holder(s, Launched(0)) || Holder(s, AwaitingStart(0))))
  }

  lemma FutureAttended(s: State, f: Fid, e: FutureStep)
    requires FutureGuard(s, f, e) && SetupInv(s) && Attended(s) && !Abandons(s, ByFut(f, e))
    requires f in s.futs ==> FutInv(s, f)
    ensures Attended(FutureEffect(s, f, e))
  {
  }

  /** Steps outside futures neither take the setup guard from a future nor take a Session back. */
  predicate Unattending(s: State, s': State) {
    && s'.futs == s.futs && |s'.sess| == |s.sess|
    && (s.setup.Some? && s.setup.value.ByFuture? ==> s'.setup == s.setup)
    && (|s.sess| == 1 && Returned(s.sess[0]) ==> Returned(s'.sess[0]))
  }

  lemma UserUnattending(s: State, k: nat, e: UserStep)
    requires UserGuard(s, k, e)
    ensures Unattending(s, UserEffect(s, k, e))
  {
  }

  lemma DoUnattending(s: State, t: Tid, act: C.Act, fired: bool)
    requires Permits(s, t, act)
    ensures Unattending(s, DoEffect(s, t, act, fired))
  {
  }

  lemma OthersUnattending(s: State, e: Step)
    requires Enabled(s, e) && !e.ByFut?
    requires e.JobReturns? ==> s.setup == Some(ByJob(e.t))
    ensures Unattending(s, Effect(s, e))
  {
    match e
    case ByUser(k, us) => UserUnattending(s, k, us);
    case Do(t, act) => DoUnattending(s, t, act, C.Did(s.core.g, t, s.core.pc[t], act).0.fired > s.core.g.fired);
    case _ =>
  }

  lemma StaysAttended(s: State, s': State)
    requires Attended(s) && Unattending(s, s')
    ensures Attended(s')
  {
  }

  lemma StepAttended(s: State, e: Step)
    requires Inv(s) && Enabled(s, e) && Attended(s) && !Abandons(s, e)
    ensures Attended(Apply(s, e))
  {
    if e.ByFut? {
      if e.f in s.futs { assert FutInv(s, e.f); }
      FutureAttended(s, e.f, e.fs);
    } else {
      if e.JobReturns? { assert RoleOk(s, e.t, s.role[e.t], s.core.pc[e.t]); }
      OthersUnattending(s, e);
      StaysAttended(s, Effect(s, e));
    }
  }

  lemma {:induction false} RunAttended(s: State, run: seq<Step>)
    requires Inv(s) && Possible(s, run) && Attended(s) && Patient(s, run)
    ensures Attended(Exec(s, run))
    decreases |run|
  {
    if run != [] {
      StepAttended(s, run[0]);
      Preserves(s, run[0]);
      RunAttended(Apply(s, run[0]), run[1..]);
    }
  }

  /** As long as nobody drops a `connect` that waits for its start signal, there is at most one
      worker and its own check never refuses. */
  lemma NoRefusalUnlessAbandoned(run: seq<Step>, t: Tid, k: nat)
    requires Possible(INITIAL, run) && Patient(INITIAL, run)
    ensures var s := Exec(INITIAL, run);
            && |s.sess| <= 1
            && (HasRole(s, t, Worker(k, true)) && t in s.core.pc && s.core.pc[t].Locked? ==>
                  Enabled(s, Do(t, C.Decide)) && Apply(s, Do(t, C.Decide)).core.pc[t].Marked?)
  {
    InitialHolds();
    RunAttended(INITIAL, run);
    RunKeepsInv(INITIAL, run);
    var s := Exec(INITIAL, run);
    if HasRole(s, t, Worker(k, true)) && t in s.core.pc && s.core.pc[t].Locked? {
      assert RoleOk(s, t, Worker(k, true), s.core.pc[t]);
      WorkerPassesIffFirst(run, t, k);
    }
  }

  // ---------------------------------------------------------------- the refused worker

  lemma {:induction false} Append(s: State, run: seq<Step>, e: Step)
    requires Possible(s, run) && Enabled(Exec(s, run), e)
    ensures Possible(s, run + [e]) && Exec(s, run + [e]) == Apply(Exec(s, run), e)
    decreases |run|
  {
    if run == [] {
      assert run + [e] == [e];
    } else {
      Append(Apply(s, run[0]), run[1..], e);
      assert (run + [e])[1..] == run[1..] + [e];
    }
  }

  ghost predicate Attainable(s: State) {
    exists run :: Possible(INITIAL, run) && Exec(INITIAL, run) == s
  }

  /** A set of states closed under every step; scenarios are played out inside an arbitrary one. */
  ghost predicate Closed(within: State -> bool) {
    forall s, e :: within(s) && Enabled(s, e) ==> within(Apply(s, e))
  }

  lemma AttainableIsClosed()
    ensures Attainable(INITIAL) && Closed(Attainable)
  {
    assert Possible(INITIAL, []) && Exec(INITIAL, []) == INITIAL;
    forall s, e | Attainable(s) && Enabled(s, e) ensures Attainable(Apply(s, e)) {
      var run :| Possible(INITIAL, run) && Exec(INITIAL, run) == s;
      Append(INITIAL, run, e);
    }
  }

  lemma Take(within: State -> bool, s: State, e: Step) returns (s': State)
    requires Closed(within) && within(s) && Enabled(s, e)
    ensures within(s') && s' == Apply(s, e)
  {
    s' := Apply(s, e);
  }

  lemma TakeDo(within: State -> bool, s: State, t: Tid, act: C.Act) returns (s': State)
    requires Closed(within) && within(s) && t in s.core.pc && C.CanDo(s.core.g, s.core.pc[t], act) && Permits(s, t, act)
    ensures var (g, p) := C.Did(s.core.g, t, s.core.pc[t], act);
            within(s') && s' == DoEffect(s, t, act, g.fired > s.core.g.fired).(core := C.State(g, s.core.pc[t := p]))
  {
    s' := Apply(s, Do(t, act));
  }

  lemma TakeFut(within: State -> bool, s: State, f: Fid, e: FutureStep) returns (s': State)
    requires Closed(within) && within(s) && FutureGuard(s, f, e) && Spawned(s, e).None?
    ensures within(s') && s' == FutureEffect(s, f, e)
  {
    s' := Apply(s, ByFut(f, e));
  }

  lemma TakeDrive(within: State -> bool, s: State, k: nat, e: DriverStep) returns (s': State)
    requires Closed(within) && within(s) && DriverGuard(s, k, e) && !e.Send?
    ensures within(s') && s' == DriverEffect(s, k, e)
  {
    s' := Apply(s, ByDriver(k, e));
  }

  const READY_CELLS: C.Shared := C.FRESH.(lifecycle := C.Ready)

  const FINISHED_CELLS: C.Shared :=
    C.FRESH.(lifecycle := C.Finished, connector := Some(1), cleared := true, connects := 1, phase := C.Done, fired := 1)

  const STOPPED_CELLS: C.Shared := FINISHED_CELLS.(stopRequested := true, swaps := 1, stopCalls := 1)

  /** A profile has been evaluated. */
  const EVALUATED: State := State(C.State(READY_CELLS, map[0 := C.Resting]), map[0 := Client], map[], None, false, [])

  function AbandonedSess(at: Drive, starts: nat, joined: bool): Sess {
    Sess(1, 2, at, starts, joined, false, Unreturned)
  }

  /** The first connect was abandoned with its worker still queued; the second has passed
      `ensure_connectable`. */
  const OVERTAKEN: State := State(
    C.State(READY_CELLS, map[0 := C.Resting, 1 := C.Resting, 2 := C.Resting]),
    map[0 := Client, 1 := Worker(0, false), 2 := Driver(0)],
    map[2 := Fut(0, Checked)], Some(ByFuture(2)), true, [AbandonedSess(Selecting, 0, false)])

  /** The first session ran and its worker returned. */
  const OVER: State := State(
    C.State(FINISHED_CELLS, map[0 := C.Resting, 2 := C.Resting]),
    map[0 := Client, 2 := Driver(0)],
    map[2 := Fut(0, Checked)], Some(ByFuture(2)), true, [AbandonedSess(Selecting, 1, true)])

  /** The first session has been cleaned up, so `session_active` is false again. */
  const CLEANED_UP: State := OVER.(
    core := C.State(STOPPED_CELLS, OVER.core.pc), active := false, sess := [AbandonedSess(Sending, 1, true)])

  lemma EvaluateScenario(within: State -> bool)
    requires Closed(within) && within(INITIAL)
    ensures within(EVALUATED)
  {
    var s := TakeFut(within, INITIAL, 0, Call(0, C.Evaluate));
    s := TakeFut(within, s, 0, LockSetup);
    s := Take(within, s, ByFut(0, CheckIdle(1)));
    s := TakeDo(within, s, 1, C.Lock(C.Evaluate));
    s := TakeDo(within, s, 1, C.Decide);
    s := TakeDo(within, s, 1, C.EvaluateReturns(true));
    assert s == State(C.State(READY_CELLS, map[0 := C.Resting, 1 := C.Resting]),
                      map[0 := Client, 1 := Job(C.Evaluate, true)],
                      map[0 := Fut(0, AwaitingJob(1))], Some(ByJob(1)), false, []);
    s := Take(within, s, JobReturns(1));
    s := TakeFut(within, s, 0, FinishAwait);
    assert s == EVALUATED;
  }

  lemma AbandonScenario(within: State -> bool)
    requires Closed(within) && within(EVALUATED)
    ensures within(OVERTAKEN.(futs := map[], setup := None))
  {
    var s := TakeFut(within, EVALUATED, 1, Call(0, C.Connect(true)));
    s := TakeFut(within, s, 1, LockSetup);
    s := TakeFut(within, s, 1, CheckConnectable);
    s := TakeFut(within, s, 1, Claim);
    assert s.futs == map[1 := Fut(0, Claimed)];
    s := Take(within, s, ByFut(1, SpawnWorker(1)));
    s := Take(within, s, ByFut(1, SpawnDriver(2)));
    s := TakeFut(within, s, 1, DropFuture);
    assert s == OVERTAKEN.(futs := map[], setup := None);
  }

  lemma OvertakeScenario(within: State -> bool)
    requires Closed(within) && within(OVERTAKEN.(futs := map[], setup := None))
    ensures within(OVERTAKEN)
  {
    var s := TakeFut(within, OVERTAKEN.(futs := map[], setup := None), 2, Call(0, C.Connect(true)));
    s := TakeFut(within, s, 2, LockSetup);
    s := TakeFut(within, s, 2, CheckConnectable);
    assert s == OVERTAKEN;
  }

  /** The first worker has entered native connect. */
  const ENTERED: State := OVERTAKEN.(
    core := C.State(FINISHED_CELLS.(lifecycle := C.Connecting, phase := C.SettingUp, registered := true, fired := 0),
                    map[0 := C.Resting, 1 := C.InConnect, 2 := C.Resting]),
    role := map[0 := Client, 1 := Worker(0, true), 2 := Driver(0)])

  /** The first worker has prepared and is about to enter native connect. */
  const PREPARED_FIRST: State := OVERTAKEN.(
    core := C.State(FINISHED_CELLS.(lifecycle := C.Connecting, phase := C.Idle, connects := 0, fired := 0),
                    map[0 := C.Resting, 1 := C.Prepared(true), 2 := C.Resting]),
    role := map[0 := Client, 1 := Worker(0, true), 2 := Driver(0)])

  lemma PrepareScenario(within: State -> bool)
    requires Closed(within) && within(OVERTAKEN)
    ensures within(PREPARED_FIRST)
  {
    var s := TakeDo(within, OVERTAKEN, 1, C.Lock(C.Connect(true)));
    s := TakeDo(within, s, 1, C.Decide);
    s := TakeDo(within, s, 1, C.ClearStop);
    assert s.core.pc == PREPARED_FIRST.core.pc && s.role == PREPARED_FIRST.role && s.sess == PREPARED_FIRST.sess;
  }

  lemma EnterScenario(within: State -> bool)
    requires Closed(within) && within(OVERTAKEN)
    ensures within(ENTERED)
  {
    PrepareScenario(within);
    var s := TakeDo(within, PREPARED_FIRST, 1, C.EnterConnect);
    assert s.core.pc == ENTERED.core.pc && s.sess == ENTERED.sess;
  }

  /** The first worker is about to return. */
  const RETURNING: State := OVER.(
    core := C.State(FINISHED_CELLS, OVERTAKEN.core.pc), role := ENTERED.role,
    sess := [AbandonedSess(Selecting, 1, false)])

  lemma JoinScenario(within: State -> bool)
    requires Closed(within) && within(RETURNING)
    ensures within(OVER)
  {
    var s := Take(within, RETURNING, WorkerReturns(0));
    assert 0 in s.core.pc;
    assert s.core.pc == OVER.core.pc && s.role == OVER.role && s.sess == OVER.sess;
  }

  lemma FirstSessionScenario(within: State -> bool)
    requires Closed(within) && within(ENTERED)
    ensures within(OVER)
  {
    var s := TakeDo(within, ENTERED, 1, C.ConnectEnds);
    s := TakeDo(within, s, 1, C.FinalNotify);
    s := TakeDo(within, s, 1, C.Reset);
    assert s == RETURNING;
    JoinScenario(within);
  }

  /** The driver's guard has run its stop. */
  const GUARD_STOPPED: State := OVER.(
    core := C.State(STOPPED_CELLS, OVER.core.pc), sess := [AbandonedSess(Halting(Guard, true), 1, true)])

  /** The driver's guard is inside the native stop. */
  const GUARD_STOPPING: State := GUARD_STOPPED.(
    core := C.State(STOPPED_CELLS, map[0 := C.Resting, 2 := C.Stopping(false)]))

  lemma GuardScenario(within: State -> bool)
    requires Closed(within) && within(OVER)
    ensures within(GUARD_STOPPED)
  {
    var s := TakeDrive(within, OVER, 0, TakeJoin);
    s := TakeDo(within, s, 2, C.StopSwap);
    s := TakeDo(within, s, 2, C.StopEnter);
    assert s.core.pc == GUARD_STOPPING.core.pc && s.sess == GUARD_STOPPING.sess;
    StopScenario(within);
  }

  lemma StopScenario(within: State -> bool)
    requires Closed(within) && within(GUARD_STOPPING)
    ensures within(GUARD_STOPPED)
  {
    var s := TakeDo(within, GUARD_STOPPING, 2, C.StopEffect);
    s := TakeDo(within, s, 2, C.StopExit);
    assert s.core.pc == GUARD_STOPPED.core.pc && s.sess == GUARD_STOPPED.sess;
  }

  lemma CleanupScenario(within: State -> bool)
    requires Closed(within) && within(GUARD_STOPPED)
    ensures within(CLEANED_UP)
  {
    var s := TakeDrive(within, GUARD_STOPPED, 0, Halted);
    s := TakeDrive(within, s, 0, Clear);
    assert s == CLEANED_UP;
  }

  lemma RefusedScenario(within: State -> bool) returns (s: State)
    requires Closed(within) && within(CLEANED_UP)
    ensures within(s)
    ensures HasRole(s, 3, Worker(1, true)) && Enabled(s, Do(3, C.Decide))
    ensures var s' := Apply(s, Do(3, C.Decide)); !s'.core.pc[3].Marked? && s'.sess[1].starts == 1
  {
    s := TakeFut(within, CLEANED_UP, 2, Claim);
    s := Take(within, s, ByFut(2, SpawnWorker(3)));
    s := TakeDo(within, s, 3, C.Lock(C.Connect(true)));
  }

  /** The run in which a second worker is spawned and its own `prepare_connect` refuses. */
  lemma SecondWorkerCanBeRefused() returns (run: seq<Step>, t: Tid)
    ensures Possible(INITIAL, run)
    ensures var s := Exec(INITIAL, run);
            && HasRole(s, t, Worker(1, true)) && Enabled(s, Do(t, C.Decide))
            && !Apply(s, Do(t, C.Decide)).core.pc[t].Marked?
            && Apply(s, Do(t, C.Decide)).sess[1].starts == 1
  {
    AttainableIsClosed();
    EvaluateScenario(Attainable);
    AbandonScenario(Attainable);
    OvertakeScenario(Attainable);
    EnterScenario(Attainable);
    FirstSessionScenario(Attainable);
    GuardScenario(Attainable);
    CleanupScenario(Attainable);
    var s := RefusedScenario(Attainable);
    run :| Possible(INITIAL, run) && Exec(INITIAL, run) == s;
    t := 3;
  }

  // ---------------------------------------------------------------- a cancellation can always be carried out

  /** Steps of the driver of session `k`, or of a thread that is inside `core.stop()`. */
  predicate Carries(s: State, k: nat, e: Step) {
    || (e.ByDriver? && e.k == k)
    || (e.Do? && HasRole(s, e.t, Driver(k)))
    || (e.Do? && e.t in s.core.pc && (s.core.pc[e.t].Armed? || s.core.pc[e.t].Stopping?))
  }

  /** A set of states closed under those steps only. */
  ghost predicate CarryClosed(within: State -> bool, k: nat) {
    forall s, e :: within(s) && Carries(s, k, e) && Enabled(s, e) ==> within(Apply(s, e))
  }

  lemma CarryDo(within: State -> bool, k: nat, s: State, t: Tid, act: C.Act) returns (s': State)
    requires CarryClosed(within, k) && within(s) && t in s.core.pc && C.CanDo(s.core.g, s.core.pc[t], act)
             && Permits(s, t, act)
    requires Carries(s, k, Do(t, act)) && Inv(s) && !act.Notify? && !act.FinalNotify? && !act.Decide?
    ensures var (g, p) := C.Did(s.core.g, t, s.core.pc[t], act);
            within(s') && Inv(s') && s' == DoEffect(s, t, act, false).(core := C.State(g, s.core.pc[t := p]))
  {
    s' := Apply(s, Do(t, act));
    Preserves(s, Do(t, act));
  }

  lemma CarryDrive(within: State -> bool, k: nat, s: State, e: DriverStep) returns (s': State)
    requires CarryClosed(within, k) && within(s) && DriverGuard(s, k, e) && !e.Send? && Inv(s)
    ensures within(s') && Inv(s') && s' == DriverEffect(s, k, e)
  {
    s' := Apply(s, ByDriver(k, e));
    Preserves(s, ByDriver(k, e));
  }

  /** Where the driver of session `k` stands. */
  lemma DriverAt(s: State, k: nat)
    requires Inv(s) && k < |s.sess| && !s.sess[k].at.Unspawned? && !s.sess[k].at.Exited?
    ensures var d := s.sess[k].driver;
            HasRole(s, d, Driver(k)) && d in s.core.pc && DriverOk(s.sess[k].at, s.core.pc[d])
  {
    assert SessInv(s, k);
    var d := s.sess[k].driver;
    assert RoleOk(s, d, s.role[d], s.core.pc[d]);
  }

  /** A thread that is about to stop Core delivers the stop in at most two of its own steps. */
  lemma PendingDelivers(within: State -> bool, k: nat, s0: State, t: Tid) returns (s: State)
    requires CarryClosed(within, k) && within(s0) && Inv(s0) && s0.core.g.phase.Running?
    requires t in s0.core.pc && (s0.core.pc[t].Armed? || s0.core.pc[t] == C.Stopping(false))
    ensures within(s) && s.core.g.delivered
  {
    assert RoleOk(s0, t, s0.role[t], s0.core.pc[t]);
    s := s0;
    if s.core.pc[t].Armed? {
      s := CarryDo(within, k, s, t, C.StopEnter);
    }
    s := CarryDo(within, k, s, t, C.StopEffect);
  }

  /** A driver inside another command returns to its select. */
  lemma CommandReturns(within: State -> bool, s0: State, k: nat) returns (s: State)
    requires CarryClosed(within, k) && within(s0) && Inv(s0) && k < |s0.sess| && s0.sess[k].at == Commanding(true)
    ensures within(s) && Inv(s) && |s.sess| == |s0.sess|
    ensures s.sess[k] == s0.sess[k].(at := Selecting) && s.core.g == s0.core.g
  {
    DriverAt(s0, k);
    var d := s0.sess[k].driver;
    s := s0;
    if s.core.pc[d].Controlling? {
      s := CarryDo(within, k, s, d, C.ControlExit);
    }
    s := CarryDrive(within, k, s, CommandDone);
  }

  lemma CommandRuns(within: State -> bool, s0: State, k: nat) returns (s: State)
    requires CarryClosed(within, k) && within(s0) && Inv(s0) && k < |s0.sess| && s0.sess[k].at.Commanding?
    ensures within(s) && Inv(s) && |s.sess| == |s0.sess|
    ensures s.sess[k] == s0.sess[k].(at := Selecting) && s.core.g == s0.core.g
  {
    s := s0;
    if !s.sess[k].at.entered {
      DriverAt(s, k);
      s := CarryDo(within, k, s, s.sess[k].driver, C.ControlEnter);
    }
    s := CommandReturns(within, s, k);
  }

  /** A driver inside `core.stop()` that has not swapped yet delivers the stop. */
  lemma HaltDelivers(within: State -> bool, s0: State, k: nat) returns (s: State)
    requires CarryClosed(within, k) && within(s0) && Inv(s0) && s0.core.g.phase.Running? && !s0.core.g.stopRequested
    requires k < |s0.sess| && s0.sess[k].at.Halting? && !s0.sess[k].at.swapped
    ensures within(s) && s.core.g.delivered
  {
    DriverAt(s0, k);
    var d := s0.sess[k].driver;
    s := CarryDo(within, k, s0, d, C.StopSwap);
    s := PendingDelivers(within, k, s, d);
  }

  /** A driver whose token is set takes the cancellation when it selects again. */
  lemma TokenDelivers(within: State -> bool, s0: State, k: nat) returns (s: State)
    requires CarryClosed(within, k) && within(s0) && Inv(s0) && !s0.core.g.stopRequested
    requires k < |s0.sess| && s0.sess[k].token && s0.core.g.phase.Running? && SessInv(s0, k)
    ensures within(s) && s.core.g.delivered
  {
    s := s0;
    if s.sess[k].at.Commanding? { s := CommandRuns(within, s, k); }
    if s.sess[k].at.Selecting? { s := CarryDrive(within, k, s, TakeCancel); }
    s := HaltDelivers(within, s, k);
  }

  /** Whenever a session's token is cancelled while native connect runs, the steps of its driver
      and of threads already inside a stop are enough to reach a state with a delivered stop. */
  lemma CancelledIsDelivered(within: State -> bool, s0: State, k: nat) returns (s: State)
    requires CarryClosed(within, k) && within(s0) && Inv(s0)
    requires k < |s0.sess| && s0.sess[k].token && s0.core.g.phase.Running?
    ensures within(s) && s.core.g.delivered
  {
    assert SessInv(s0, k);
    assert SessInv(s0, 0);
    s := s0;
    if s.core.g.stopRequested {
      C.CoreCleared(s.core);
      if C.Pending(s.core) {
        var t :| t in s.core.pc && (s.core.pc[t].Armed? || s.core.pc[t] == C.Stopping(false));
        s := PendingDelivers(within, k, s, t);
      }
    } else {
      s := TokenDelivers(within, s, k);
    }
  }
}
