/** What every run of the Tokio layer guarantees. */
module TokioSafety {
  import opened Options
  import C = ClientCore
  import opened TokioSession
  import opened TokioInvariant
  import opened TokioSteps

  // ---------------------------------------------------------------- assembling the steps

  lemma ControlStop(s: State, s': State, t: Tid, k: nat, act: C.Act)
    requires Inv(s) && C.Enabled(s.core, C.Do(t, act)) && IsControl(act)
    requires k < |s.sess| && s.sess[k].starts == 1
    requires s'.core == C.Apply(s.core, C.Do(t, act)) && |s'.sess| == |s.sess|
    requires s'.sess[0].starts == s.sess[0].starts
    ensures StopInv(s')
  {
    assert SessInv(s, 0);
    ControlCells(s.core.g, t, s.core.pc[t], act);
    C.HeardStep(s.core, C.Do(t, act));
  }

  lemma WorkerStop(s: State, s': State, t: Tid, k: nat, b: bool, act: C.Act)
    requires Inv(s) && C.Enabled(s.core, C.Do(t, act)) && HasRole(s, t, Worker(k, b)) && Permits(s, t, act)
    requires s' == Apply(s, Do(t, act))
    requires k > 0 ==> s.core.g.lifecycle.Finished? && s.sess[0].starts == 1
    ensures StopInv(s')
  {
    var p := s.core.pc[t];
    assert RoleOk(s, t, s.role[t], p);
    assert C.ThreadInv(s.core.g, t, p);
    var (g', p') := C.Did(s.core.g, t, p, act);
    WorkerDoLocal(s, g', p', t, k, b, act);
    if s.sess[0].starts > 0 {
      C.HeardStep(s.core, C.Do(t, act));
    }
  }

  lemma WorkerPreserves(s: State, t: Tid, k: nat, b: bool, act: C.Act)
    requires Inv(s) && Enabled(s, Do(t, act)) && HasRole(s, t, Worker(k, b))
    ensures Inv(Apply(s, Do(t, act)))
  {
    var s' := Apply(s, Do(t, act));
    assert RoleOk(s, t, s.role[t], s.core.pc[t]);
    assert SessInv(s, k) && SessInv(s, 0);
    assert C.ThreadInv(s.core.g, t, s.core.pc[t]);
    C.Preserves(s.core, C.Do(t, act));
    WorkerMoves(s, s', t, k, b, act);
    if k == 0 {
      FirstWorkerOuter(s, s', t, b || act.Lock?);
    } else {
      SecondWorkerOuter(s, s', t, k, b || act.Lock?);
    }
    WorkerStop(s, s', t, k, b, act);
  }

  /** The worker's step, seen from the Tokio layer. */
  lemma WorkerMoves(s: State, s': State, t: Tid, k: nat, b: bool, act: C.Act)
    requires HasRole(s, t, Worker(k, b)) && Enabled(s, Do(t, act)) && s' == Apply(s, Do(t, act))
    requires RoleOk(s, t, s.role[t], s.core.pc[t]) && SessInv(s, k)
    requires C.ThreadInv(s.core.g, t, s.core.pc[t]) && C.SharedInv(s.core.g)
    requires (k > 0 ==> s.core.g.lifecycle.Finished?) && !s.core.g.lifecycle.New?
    ensures WorkerMoved(s, s', t, k, b || act.Lock?) && !s'.core.g.lifecycle.New?
    ensures k > 0 ==> SameCells(s.core.g, s'.core.g)
  {
    var (g', p') := C.Did(s.core.g, t, s.core.pc[t], act);
    WorkerDoLocal(s, g', p', t, k, b, act);
    WorkerShape(s, t, k, b, act);
    WorkerSess(s, s', k);
  }

  lemma WorkerShape(s: State, t: Tid, k: nat, b: bool, act: C.Act)
    requires HasRole(s, t, Worker(k, b)) && Enabled(s, Do(t, act))
    ensures var s', (g', p') := Apply(s, Do(t, act)), C.Did(s.core.g, t, s.core.pc[t], act);
            var starts := s.sess[k].starts + if g'.fired > s.core.g.fired then 1 else 0;
            s' == s.(core := C.State(g', s.core.pc[t := p']), role := s.role[t := Worker(k, b || act.Lock?)],
                     sess := s.sess[k := s.sess[k].(starts := starts)])
  {
    assert s.role == s.role[t := s.role[t]];
  }

  lemma JobPreserves(s: State, t: Tid, op: C.Op, b: bool, act: C.Act)
    requires Inv(s) && Enabled(s, Do(t, act)) && HasRole(s, t, Job(op, b))
    ensures Inv(Apply(s, Do(t, act)))
  {
    var s' := Apply(s, Do(t, act));
    assert C.ThreadInv(s.core.g, t, s.core.pc[t]);
    assert RoleOk(s, t, s.role[t], s.core.pc[t]);
    C.Preserves(s.core, C.Do(t, act));
    JobDoLocal(s, s', t, op, b, act);
    JobMeansIdle(s, t);
    if s'.core.g.lifecycle == s.core.g.lifecycle {
      JobDoSame(s, s', t, op, b, b || act.Lock?);
    } else {
      JobDoReady(s, s', t, op, b, b || act.Lock?);
    }
    JobKeepsStop(s, s', t, act);
  }

  lemma JobKeepsStop(s: State, s': State, t: Tid, act: C.Act)
    requires Inv(s) && C.Enabled(s.core, C.Do(t, act)) && s'.core == C.Apply(s.core, C.Do(t, act)) && s'.sess == s.sess
    requires s'.core.g == s.core.g.(mutex := s'.core.g.mutex, lifecycle := s'.core.g.lifecycle)
    requires |s.sess| > 0 ==> s.core.g.lifecycle.Finished?
    ensures StopInv(s')
  {
  }

  lemma DriverPreserves(s: State, t: Tid, k: nat, act: C.Act)
    requires Inv(s) && Enabled(s, Do(t, act)) && HasRole(s, t, Driver(k))
    ensures Inv(Apply(s, Do(t, act)))
  {
    var s' := Apply(s, Do(t, act));
    assert RoleOk(s, t, s.role[t], s.core.pc[t]);
    assert SessInv(s, k);
    C.Preserves(s.core, C.Do(t, act));
    DriverDoLocal(s, s', t, k, act);
    DriverDoOuter(s, s', t, k, act);
    ControlStop(s, s', t, k, act);
  }

  lemma HandlePreserves(s: State, t: Tid, k: nat, c: bool, act: C.Act)
    requires Inv(s) && Enabled(s, Do(t, act)) && HasRole(s, t, Handle(k, c))
    ensures Inv(Apply(s, Do(t, act)))
  {
    var s' := Apply(s, Do(t, act));
    assert RoleOk(s, t, s.role[t], s.core.pc[t]);
    assert SessInv(s, k);
    C.Preserves(s.core, C.Do(t, act));
    HandleDoLocal(s, s', t, k, c, act);
    HandleDoOuter(s, s', t, k, c, s'.role[t].cancelling, act);
    ControlStop(s, s', t, k, act);
  }

  lemma ClientTakesNoStep(s: State, t: Tid, act: C.Act)
    requires Inv(s) && HasRole(s, t, Client)
    ensures !Enabled(s, Do(t, act))
  {
    assert RoleOk(s, t, s.role[t], s.core.pc[t]);
  }

  lemma DoPreserves(s: State, t: Tid, act: C.Act)
    requires Inv(s) && Enabled(s, Do(t, act))
    ensures Inv(Apply(s, Do(t, act)))
  {
    match s.role[t]
    case Client => ClientTakesNoStep(s, t, act);
    case Job(op, b) => JobPreserves(s, t, op, b, act);
    case Worker(k, b) => WorkerPreserves(s, t, k, b, act);
    case Driver(k) => DriverPreserves(s, t, k, act);
    case Handle(k, c) => HandlePreserves(s, t, k, c, act);
  }

  lemma CloneHandlePreserves(s: State, k: nat, h: Tid, u: Tid)
    requires Inv(s) && Enabled(s, ByUser(k, CloneHandle(h, u)))
    ensures Inv(Apply(s, ByUser(k, CloneHandle(h, u))))
  {
    assert RoleOk(s, h, s.role[h], s.core.pc[h]);
    ClonePreserves(s, h, u, Handle(k, false), k);
    assert Apply(s, ByUser(k, CloneHandle(h, u))) == Join(s, u, Handle(k, false));
  }

  lemma ReleasePreserves(s: State, k: nat)
    requires Inv(s) && Enabled(s, ByUser(k, ReleaseSession))
    ensures Inv(Apply(s, ByUser(k, ReleaseSession)))
  {
    var s', h := Apply(s, ByUser(k, ReleaseSession)), s.sess[k].front.h;
    LeaveCore(s.core, h);
    ReleaseSessionOuter(s, s', k);
    LeavePreserves(s, s', h);
  }

  lemma UserPreserves(s: State, k: nat, e: UserStep)
    requires Inv(s) && Enabled(s, ByUser(k, e))
    ensures Inv(Apply(s, ByUser(k, e)))
  {
    var s' := Apply(s, ByUser(k, e));
    match e
    case CloneHandle(h, u) =>
      CloneHandlePreserves(s, k, h, u);
    case DropHandle(h) =>
      LeaveCore(s.core, h);
      DropHandleOuter(s, s', k, h);
      LeavePreserves(s, s', h);
    case ReleaseSession =>
      ReleasePreserves(s, k);
    case _ =>
      UserOuter(s, k, e);
      StopKept(s, s');
  }

  lemma DriverStepPreserves(s: State, k: nat, e: DriverStep)
    requires Inv(s) && Enabled(s, ByDriver(k, e))
    ensures Inv(Apply(s, ByDriver(k, e)))
  {
    var s' := Apply(s, ByDriver(k, e));
    if e.Send? {
      LeaveCore(s.core, s.sess[k].driver);
      SendOuter(s, s', k);
      LeavePreserves(s, s', s.sess[k].driver);
    } else {
      DriverOuter(s, k, e);
      StopKept(s, s');
    }
  }

  lemma DropClientPreserves(s: State, t: Tid)
    requires Inv(s) && Enabled(s, DropClient(t))
    ensures Inv(Apply(s, DropClient(t)))
  {
    LeaveCore(s.core, t);
    DropClientOuter(s, Apply(s, DropClient(t)), t);
    LeavePreserves(s, Apply(s, DropClient(t)), t);
  }

  lemma JobReturnsPreserves(s: State, t: Tid)
    requires Inv(s) && Enabled(s, JobReturns(t))
    ensures Inv(Apply(s, JobReturns(t)))
  {
    LeaveCore(s.core, t);
    JobReturnsOuter(s, Apply(s, JobReturns(t)), t);
    LeavePreserves(s, Apply(s, JobReturns(t)), t);
  }

  lemma WorkerReturnsPreserves(s: State, k: nat)
    requires Inv(s) && Enabled(s, WorkerReturns(k))
    ensures Inv(Apply(s, WorkerReturns(k)))
  {
    LeaveCore(s.core, s.sess[k].worker);
    WorkerReturnsOuter(s, Apply(s, WorkerReturns(k)), k);
    LeavePreserves(s, Apply(s, WorkerReturns(k)), s.sess[k].worker);
  }

  lemma CloneClientPreserves(s: State, t: Tid, u: Tid)
    requires Inv(s) && Enabled(s, CloneClient(t, u))
    ensures Inv(Apply(s, CloneClient(t, u)))
  {
    ClonePreserves(s, t, u, Client, 0);
    assert Apply(s, CloneClient(t, u)) == Join(s, u, Client);
  }

  lemma Preserves(s: State, e: Step)
    requires Inv(s) && Enabled(s, e)
    ensures Inv(Apply(s, e))
  {
    match e
    case CloneClient(t, u) =>
      CloneClientPreserves(s, t, u);
    case ByFut(f, fs) => FuturePreserves(s, f, fs);
    case Do(t, act) => DoPreserves(s, t, act);
    case ByDriver(k, ds) => DriverStepPreserves(s, k, ds);
    case ByUser(k, us) => UserPreserves(s, k, us);
    case Tear(a) => TearPreserves(s, a);
    case DropClient(t) => DropClientPreserves(s, t);
    case JobReturns(t) => JobReturnsPreserves(s, t);
    case WorkerReturns(k) => WorkerReturnsPreserves(s, k);
  }

  lemma {:induction false} RunKeepsInv(s: State, run: seq<Step>)
    requires Inv(s) && Possible(s, run)
    ensures Inv(Exec(s, run))
    decreases |run|
  {
    if run != [] {
      Preserves(s, run[0]);
      RunKeepsInv(Apply(s, run[0]), run[1..]);
    }
  }

  lemma ReachableInv(run: seq<Step>)
    requires Possible(INITIAL, run)
    ensures Inv(Exec(INITIAL, run))
  {
    InitialHolds();
    RunKeepsInv(INITIAL, run);
  }

  // ---------------------------------------------------------------- refinement of the blocking client

  /** Every run of the Tokio layer is a run of the blocking client, so everything proved of the
      blocking client holds of it. */
  lemma {:induction false} RefinesCore(s: State, run: seq<Step>) returns (coreRun: seq<C.Action>)
    requires Possible(s, run)
    ensures C.Possible(s.core, coreRun) && C.Exec(s.core, coreRun) == Exec(s, run).core
    decreases |run|
  {
    if run == [] {
      coreRun := [];
    } else {
      var rest := RefinesCore(Apply(s, run[0]), run[1..]);
      var a := CoreAction(s, run[0]);
      if a.Some? {
        coreRun := [a.value] + rest;
        assert coreRun[1..] == rest;
      } else {
        coreRun := rest;
      }
    }
  }

  /** In every run, with futures dropped wherever their owners like, the lifecycle only moves
      forward, native connect is entered at most once, native evaluate, credentials and connect
      never overlap, native stop is entered at most twice and nothing follows the native free. */
  lemma TokioSerializesCore(run: seq<Step>, later: seq<Step>, t: Tid, u: Tid, a: C.Action)
    requires Possible(INITIAL, run) && Possible(Exec(INITIAL, run), later)
    ensures var s, z := Exec(INITIAL, run).core, Exec(Exec(INITIAL, run), later).core;
            && C.Rank(s.g.lifecycle) <= C.Rank(z.g.lifecycle)
            && s.g.connects <= 1 && s.g.stopCalls <= 2 && s.g.frees <= 1
            && (t in s.pc && u in s.pc && C.Exclusive(s.pc[t]) && C.Exclusive(s.pc[u]) ==> t == u)
            && (s.g.frees == 1 ==> s.pc == map[] && !C.Enabled(s, a))
  {
    var coreRun := RefinesCore(INITIAL, run);
    var coreLater := RefinesCore(Exec(INITIAL, run), later);
    C.InitialHolds();
    C.RunKeepsInv(C.INITIAL, coreRun);
    C.LifecycleForward(Exec(INITIAL, run).core, coreLater);
    C.SerializedNativeCalls(coreRun, t, u);
    C.AtMostTwoNativeStops(coreRun);
    C.FreeIsLast(coreRun, a);
  }

  // ---------------------------------------------------------------- no lost stop

  /** The start signal fires exactly once per worker, and before the first one fires nobody has
      asked for a stop or is inside one. */
  lemma StartsOnceBeforeAnyStop(run: seq<Step>, k: nat, t: Tid)
    requires Possible(INITIAL, run)
    ensures var s := Exec(INITIAL, run);
            && (k < |s.sess| ==> s.sess[k].starts <= 1 && (s.sess[k].joined ==> s.sess[k].starts == 1))
            && (s.core.g.teardown.Alive? && (s.sess == [] || s.sess[0].starts == 0) ==>
                  && !s.core.g.stopRequested
                  && (t in s.core.pc ==> !s.core.pc[t].Armed? && !s.core.pc[t].Stopping?))
  {
    ReachableInv(run);
    var s := Exec(INITIAL, run);
    assert k < |s.sess| ==> SessInv(s, k);
    if t in s.core.pc {
      assert RoleOk(s, t, s.role[t], s.core.pc[t]);
      if s.role[t].Driver? || s.role[t].Handle? {
        assert SessInv(s, s.role[t].k);
        assert SessInv(s, 0);
      }
    }
  }

  /** No live reference ever wastes a native stop on a Core that cannot hear it; and once somebody asked
      for a stop, it has been delivered, some thread is about to deliver it, or native connect
      is over. */
  lemma NoLostStop(run: seq<Step>)
    requires Possible(INITIAL, run)
    ensures var s := Exec(INITIAL, run).core;
            && s.g.early == 0
            && (s.g.teardown.Alive? && s.g.stopRequested ==> s.g.delivered || C.Pending(s) || s.g.phase.Done?)
  {
    ReachableInv(run);
    var s := Exec(INITIAL, run);
    if s.core.g.phase.Running? {
      var c := s.core.g.connector.value;
      assert C.ThreadInv(s.core.g, c, s.core.pc[c]);
    }
  }

  /** Cancelling reaches the stop flag: a driver that saw the cancellation, a Session dropped
      before it resolved, and every session that ended have requested the stop; a driver that
      has not looked yet can always take the cancellation branch. */
  lemma CancellationRequestsStop(run: seq<Step>, k: nat)
    requires Possible(INITIAL, run) && k < |Exec(INITIAL, run).sess|
    ensures var s := Exec(INITIAL, run);
            var x := s.sess[k];
            && (x.at.Joining? || (Quitting(x.at) && x.at != Halting(Guard, false)) ==> s.core.g.stopRequested)
            && (x.front == Gone(true) ==> x.token && s.core.g.stopRequested)
            && (x.token && x.at.Selecting? ==> Enabled(s, ByDriver(k, TakeCancel)))
  {
    ReachableInv(run);
    assert SessInv(Exec(INITIAL, run), k);
  }

  /** When a Session resolves with the driver's result, native connect has returned, the
      lifecycle is Finished, `session_active` is false and a native stop was issued or is in flight. */
  lemma SessionResolvedMeansDone(run: seq<Step>, k: nat)
    requires Possible(INITIAL, run) && k < |Exec(INITIAL, run).sess|
    requires Exec(INITIAL, run).sess[k].front.Resolved?
    ensures var s := Exec(INITIAL, run);
            && s.core.g.phase.Done? && s.core.g.lifecycle.Finished? && !s.active
            && s.core.g.stopRequested && s.core.g.stopCalls + |C.ArmedIn(s.core.pc)| >= 1
            && (forall t :: t in s.core.pc ==> !s.core.pc[t].InConnect?)
  {
    ReachableInv(run);
    var s := Exec(INITIAL, run);
    ResolvedSession(s, k);
    FinishedCore(s.core);
    StopWasIssued(s.core);
  }

  lemma ResolvedSession(s: State, k: nat)
    requires Inv(s) && k < |s.sess| && s.sess[k].front.Resolved?
    ensures s.core.g.lifecycle.Finished? && s.core.g.stopRequested && !s.active
  {
    assert SessInv(s, k);
    HolderOk(s);
  }

  lemma FinishedCore(core: C.State)
    requires C.Inv(core) && core.g.lifecycle.Finished?
    ensures core.g.phase.Done? && forall t :: t in core.pc ==> !core.pc[t].InConnect?
  {
    assert forall t :: t in core.pc ==> C.ThreadInv(core.g, t, core.pc[t]);
  }

  lemma StopWasIssued(core: C.State)
    requires C.Inv(core) && core.g.stopRequested
    ensures core.g.stopCalls + |C.ArmedIn(core.pc)| >= 1
  {
  }
}
