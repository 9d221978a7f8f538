/** Every step of the Tokio layer keeps its invariant. */
module TokioSteps {
  import opened Options
  import C = ClientCore
  import opened TokioSession
  import opened TokioInvariant

  // ---------------------------------------------------------------- changes around one thread and one session

  /** Only thread `t` and session `k` differ, and the cells that others rely on do not. */
  ghost predicate Only(s: State, s': State, t: Tid, k: nat) {
    && s'.futs == s.futs && SameCells(s.core.g, s'.core.g)
    && s.role.Keys == s.core.pc.Keys && s'.role.Keys == s'.core.pc.Keys
    && (forall u :: u != t ==> (u in s'.role <==> u in s.role))
    && (forall u :: u != t && u in s.role ==> s'.role[u] == s.role[u] && s'.core.pc[u] == s.core.pc[u])
    && |s'.sess| == |s.sess|
    && (forall i :: 0 <= i < |s.sess| && i != k ==> s'.sess[i] == s.sess[i])
    && (s'.setup == s.setup || (s.setup == Some(ByJob(t)) && s'.setup.None?))
    && (s'.role == s.role || (t in s.role ==> forall i :: Concerns(s.role[t], i) ==> i == k))
  }

  /** Session `k` changes in a way that its other threads tolerate. */
  predicate Tolerated(s: State, s': State, t: Tid, k: nat) {
    k < |s.sess| && k < |s'.sess| ==>
      && var x, x' := s.sess[k], s'.sess[k];
      && x'.worker == x.worker && (x'.joined == x.joined || x.worker == t)
      && (x'.starts == x.starts || x.worker == t)
      && x'.driver == x.driver
      && (x'.at == x.at || x.driver == t || (Rests(s, x.driver) && !x'.at.Unspawned? && !x'.at.Exited?))
      && (Returned(x) ==> Returned(x'))
      && (x.token ==> x'.token)
      && SessInv(s', k)
  }

  ghost predicate Borrowed(s: State, t: Tid) {
    exists f :: f in s.futs && s.futs[f].client == t
  }

  lemma BorrowedIsClient(s: State, t: Tid)
    requires Futures(s)
    ensures Borrowed(s, t) ==> HasRole(s, t, Client)
  {
    if Borrowed(s, t) {
      var f :| f in s.futs && s.futs[f].client == t;
      assert FutInv(s, f);
    }
  }

  /** What the holder of the setup guard knows. */
  lemma HolderOk(s: State)
    requires Futures(s) && SetupInv(s)
    ensures HolderInv(s)
  {
    if s.setup.Some? && s.setup.value.ByFuture? { assert FutInv(s, s.setup.value.f); }
  }

  lemma OnlyThreads(s: State, s': State, t: Tid, k: nat)
    requires Threads(s) && Only(s, s', t, k) && Tolerated(s, s', t, k)
    requires t in s'.role ==> RoleOk(s', t, s'.role[t], s'.core.pc[t])
    ensures Threads(s')
  {
    forall u | u in s'.role ensures RoleOk(s', u, s'.role[u], s'.core.pc[u]) {
      if u != t { assert RoleOk(s, u, s.role[u], s.core.pc[u]); }
    }
  }

  lemma OnlySessions(s: State, s': State, t: Tid, k: nat)
    requires Sessions(s) && Only(s, s', t, k) && Tolerated(s, s', t, k)
    requires t !in s.role ==> t !in s'.role || Concerns(s'.role[t], k)
    ensures Sessions(s')
  {
    forall i | 0 <= i < |s'.sess| ensures SessInv(s', i) {
      if i != k {
        assert SessInv(s, i);
        SameSess(s, s', i);
      }
    }
  }

  lemma OnlyFutures(s: State, s': State, t: Tid, k: nat)
    requires Futures(s) && SetupInv(s) && Only(s, s', t, k) && (Borrowed(s, t) ==> HasRole(s', t, Client))
    requires HolderInv(s')
    ensures Futures(s')
  {
    forall g | g in s'.futs ensures FutInv(s', g) {
      assert FutInv(s, g);
      SameFut(s, s', g);
    }
  }

  /** The three together. */
  lemma OnlyParts(s: State, s': State, t: Tid, k: nat)
    requires Threads(s) && Sessions(s) && Futures(s) && SetupInv(s) && Only(s, s', t, k) && Tolerated(s, s', t, k)
    requires t in s'.role ==> RoleOk(s', t, s'.role[t], s'.core.pc[t])
    requires t !in s.role ==> t !in s'.role || Concerns(s'.role[t], k)
    requires Borrowed(s, t) ==> HasRole(s', t, Client)
    requires HolderInv(s')
    ensures Threads(s') && Sessions(s') && Futures(s')
  {
    OnlyThreads(s, s', t, k);
    OnlySessions(s, s', t, k);
    OnlyFutures(s, s', t, k);
  }

  predicate HolderInv(s: State) {
    s.setup.Some? && s.setup.value.ByFuture? && s.setup.value.f in s.futs ==>
      StageOk(s.core.g.lifecycle, s.sess, s.futs[s.setup.value.f].at)
  }

  /** Changes that the setup mutex and the active flag do not notice. */
  predicate Unnoticed(s: State, s': State, t: Tid, k: nat) {
    && |s'.sess| == |s.sess| && s'.setup == s.setup && s'.active == s.active
    && (t in s.role && s.role[t].Job? ==> t in s'.role && s'.role[t].Job?)
    && (k < |s.sess| ==>
          && PastClear(s'.sess[k].at) == PastClear(s.sess[k].at)
          && s'.sess[k].at.Unspawned? == s.sess[k].at.Unspawned?
          && Returned(s'.sess[k]) == Returned(s.sess[k])
          && (s.sess[k].joined ==> s'.sess[k].joined))
  }

  lemma FrameKept(s: State, s': State, t: Tid, k: nat)
    requires Only(s, s', t, k) && Unnoticed(s, s', t, k)
    requires SetupInv(s) && CountInv(s) && ActiveInv(s) && HolderInv(s)
    ensures SetupInv(s') && CountInv(s') && ActiveInv(s') && HolderInv(s')
  {
  }

  /** A thread that does not stop being a client, and a session, change unnoticed by everybody else. */
  lemma OuterKept(s: State, s': State, t: Tid, k: nat)
    requires Outer(s) && Only(s, s', t, k) && Tolerated(s, s', t, k) && Unnoticed(s, s', t, k)
    requires HasRole(s, t, Client) ==> HasRole(s', t, Client)
    requires t in s'.role ==> RoleOk(s', t, s'.role[t], s'.core.pc[t])
    requires t !in s.role ==> t !in s'.role || Concerns(s'.role[t], k)
    ensures Outer(s')
  {
    BorrowedIsClient(s, t);
    HolderOk(s);
    FrameKept(s, s', t, k);
    OnlyParts(s, s', t, k);
  }

  lemma StopKept(s: State, s': State)
    requires StopInv(s) && SameCells(s.core.g, s'.core.g) && s'.core.g.early == s.core.g.early
    requires s'.core.g.stopRequested == s.core.g.stopRequested
    requires s'.core.g.teardown.Alive? ==> s.core.g.teardown.Alive?
    requires |s'.sess| == |s.sess| && (|s.sess| > 0 ==> s'.sess[0].starts == s.sess[0].starts)
    requires C.Lost(s'.core) ==> C.Lost(s.core)
    ensures StopInv(s')
  {
  }

  // ---------------------------------------------------------------- references that go away

  lemma LeaveCore(core: C.State, t: Tid)
    requires C.Inv(core) && C.Enabled(core, C.DropClone(t))
    ensures var core' := C.Apply(core, C.DropClone(t));
            && C.Inv(core') && core'.pc == core.pc - {t} && SameCells(core.g, core'.g)
            && core'.g.early == core.g.early && core'.g.stopRequested == core.g.stopRequested
            && (core'.g.teardown.Alive? ==> core.g.teardown.Alive?)
            && (C.Lost(core') ==> C.Lost(core))
  {
    C.Preserves(core, C.DropClone(t));
    var core' := C.Apply(core, C.DropClone(t));
    if C.Pending(core) {
      var u :| u in core.pc && (core.pc[u].Armed? || core.pc[u] == C.Stopping(false));
      assert u in core'.pc && (core'.pc[u].Armed? || core'.pc[u] == C.Stopping(false));
    }
  }

  lemma LeavePreserves(s: State, s': State, t: Tid)
    requires Inv(s) && C.Enabled(s.core, C.DropClone(t)) && s'.core == C.Apply(s.core, C.DropClone(t)) && Outer(s')
    requires |s'.sess| == |s.sess| && (|s.sess| > 0 ==> s'.sess[0].starts == s.sess[0].starts)
    ensures Inv(s')
  {
    LeaveCore(s.core, t);
    StopKept(s, s');
  }

  /** The cells after a reference went away, without the invariant of the blocking client. */
  predicate Left(s: State, s': State, t: Tid) {
    t in s.core.pc && s'.core.pc == s.core.pc - {t} && SameCells(s.core.g, s'.core.g)
  }

  /** A thread of session `k` goes away, and `k` becomes `x`. */
  predicate LeftSession(s: State, s': State, t: Tid, k: nat, x: Sess) {
    && Left(s, s', t) && k < |s.sess| && t in s.role && Concerns(s.role[t], k)
    && s' == s.(role := s.role - {t}, core := s'.core, sess := s.sess[k := x])
  }

  lemma LeftOnly(s: State, s': State, t: Tid, k: nat, x: Sess)
    requires LeftSession(s, s', t, k, x) && s.role.Keys == s.core.pc.Keys
    ensures Only(s, s', t, k)
  {
    assert s'.role.Keys == s.role.Keys - {t} && s'.core.pc.Keys == s.core.pc.Keys - {t};
  }

  lemma LeftOuter(s: State, s': State, t: Tid, k: nat, x: Sess)
    requires Outer(s) && LeftSession(s, s', t, k, x) && Tolerated(s, s', t, k) && Unnoticed(s, s', t, k)
    ensures Outer(s')
  {
    LeftOnly(s, s', t, k, x);
    OuterKept(s, s', t, k);
  }

  lemma DropClientOnly(s: State, s': State, t: Tid)
    requires HasRole(s, t, Client) && Left(s, s', t) && s.role.Keys == s.core.pc.Keys
    requires s' == s.(role := s.role - {t}, core := s'.core)
    ensures Only(s, s', t, |s.sess|)
  {
    assert s'.role.Keys == s.role.Keys - {t} && s'.core.pc.Keys == s.core.pc.Keys - {t};
  }

  lemma DropClientOuter(s: State, s': State, t: Tid)
    requires Outer(s) && Guarded(s, DropClient(t)) && Left(s, s', t)
    requires s' == s.(role := s.role - {t}, core := s'.core)
    ensures Outer(s')
  {
    DropClientOnly(s, s', t);
    HolderOk(s);
    FrameKept(s, s', t, |s.sess|);
    OnlyParts(s, s', t, |s.sess|);
  }

  lemma JobReturnsOuter(s: State, s': State, t: Tid)
    requires Outer(s) && Guarded(s, JobReturns(t)) && Left(s, s', t)
    requires s' == s.(role := s.role - {t}, core := s'.core, setup := None)
    ensures Outer(s')
  {
    assert RoleOk(s, t, s.role[t], s.core.pc[t]);
    BorrowedIsClient(s, t);
    OnlyParts(s, s', t, |s.sess|);
  }

  lemma DropHandleOuter(s: State, s': State, k: nat, h: Tid)
    requires Outer(s) && UserGuard(s, k, DropHandle(h)) && Left(s, s', h)
    requires s' == s.(role := s.role - {h}, core := s'.core)
    ensures Outer(s')
  {
    assert SessInv(s, k);
    assert s.sess[k := s.sess[k]] == s.sess;
    LeftOuter(s, s', h, k, s.sess[k]);
  }

  lemma WorkerReturnsSess(s: State, s': State, k: nat)
    requires Guarded(s, WorkerReturns(k)) && SessInv(s, k) && s.sess[k].worker in s.core.pc
    requires RoleOk(s, s.sess[k].worker, s.role[s.sess[k].worker], s.core.pc[s.sess[k].worker])
    requires LeftSession(s, s', s.sess[k].worker, k, s.sess[k].(joined := true))
    ensures Tolerated(s, s', s.sess[k].worker, k)
  {
  }

  lemma WorkerReturnsOuter(s: State, s': State, k: nat)
    requires Outer(s) && Guarded(s, WorkerReturns(k)) && Left(s, s', s.sess[k].worker)
    requires s' == s.(role := s.role - {s.sess[k].worker}, core := s'.core,
                      sess := s.sess[k := s.sess[k].(joined := true)])
    ensures Outer(s')
  {
    var w := s.sess[k].worker;
    assert SessInv(s, k) && RoleOk(s, w, s.role[w], s.core.pc[w]);
    WorkerReturnsSess(s, s', k);
    LeftOuter(s, s', w, k, s.sess[k].(joined := true));
  }

  lemma SendSess(s: State, s': State, k: nat)
    requires DriverGuard(s, k, Send) && SessInv(s, k)
    requires LeftSession(s, s', s.sess[k].driver, k, s.sess[k].(at := Exited))
    ensures Tolerated(s, s', s.sess[k].driver, k)
  {
  }

  lemma SendOuter(s: State, s': State, k: nat)
    requires Outer(s) && DriverGuard(s, k, Send) && Left(s, s', s.sess[k].driver)
    requires s' == Steer(s, k, Exited).(role := s.role - {s.sess[k].driver}, core := s'.core)
    ensures Outer(s')
  {
    assert SessInv(s, k);
    SendSess(s, s', k);
    LeftOuter(s, s', s.sess[k].driver, k, s.sess[k].(at := Exited));
  }

  lemma ReleaseSess(s: State, s': State, k: nat)
    requires UserGuard(s, k, ReleaseSession) && SessInv(s, k)
    requires LeftSession(s, s', s.sess[k].front.h, k, s.sess[k].(front := Gone(s.sess[k].front.Dropping?)))
    ensures Tolerated(s, s', s.sess[k].front.h, k)
  {
  }

  lemma ReleaseSessionOuter(s: State, s': State, k: nat)
    requires Outer(s) && UserGuard(s, k, ReleaseSession) && Left(s, s', s.sess[k].front.h)
    requires s' == s.(role := s.role - {s.sess[k].front.h}, core := s'.core,
                      sess := s.sess[k := s.sess[k].(front := Gone(s.sess[k].front.Dropping?))])
    ensures Outer(s')
  {
    assert SessInv(s, k);
    ReleaseSess(s, s', k);
    LeftOuter(s, s', s.sess[k].front.h, k, s.sess[k].(front := Gone(s.sess[k].front.Dropping?)));
  }

  // ---------------------------------------------------------------- the driver between core calls

  lemma DriverSess(s: State, k: nat, e: DriverStep)
    requires DriverGuard(s, k, e) && !e.Send? && SessInv(s, k)
    ensures SessInv(DriverEffect(s, k, e), k)
  {
  }

  lemma DriverFrame(s: State, k: nat, e: DriverStep)
    requires DriverGuard(s, k, e) && !e.Send? && SessInv(s, k)
    requires SetupInv(s) && CountInv(s) && ActiveInv(s) && HolderInv(s)
    ensures var s' := DriverEffect(s, k, e);
            SetupInv(s') && CountInv(s') && ActiveInv(s') && HolderInv(s')
  {
  }

  lemma DriverOnly(s: State, k: nat, e: DriverStep)
    requires DriverGuard(s, k, e) && !e.Send? && SessInv(s, k) && s.role.Keys == s.core.pc.Keys
    requires s.sess[k].driver in s.role
             && RoleOk(s, s.sess[k].driver, s.role[s.sess[k].driver], s.core.pc[s.sess[k].driver])
    ensures var s', d := DriverEffect(s, k, e), s.sess[k].driver;
            Only(s, s', d, k) && Tolerated(s, s', d, k) && RoleOk(s', d, s'.role[d], s'.core.pc[d])
  {
    DriverSess(s, k, e);
  }

  lemma DriverOuter(s: State, k: nat, e: DriverStep)
    requires Outer(s) && DriverGuard(s, k, e) && !e.Send?
    ensures Outer(DriverEffect(s, k, e))
  {
    var d := s.sess[k].driver;
    assert SessInv(s, k) && RoleOk(s, d, s.role[d], s.core.pc[d]);
    HolderOk(s);
    BorrowedIsClient(s, d);
    DriverOnly(s, k, e);
    DriverFrame(s, k, e);
    OnlyParts(s, DriverEffect(s, k, e), d, k);
  }

  // ---------------------------------------------------------------- users of a session

  predicate Silent(e: UserStep) {
    e.TokenCancel? || e.Cancel? || e.Resolve? || e.DropSession?
  }

  /** The handle a user step works on; any thread will do where there is none. */
  function Subject(s: State, k: nat, e: UserStep): Tid
    requires UserGuard(s, k, e)
  {
    if e.Cancel? then e.h else if HasHandle(s.sess[k].front) then s.sess[k].front.h else s.sess[k].worker
  }

  predicate SubjectOk(s: State, k: nat, e: UserStep)
    requires UserGuard(s, k, e)
  {
    var h := Subject(s, k, e);
    h in s.role ==> h in s.core.pc && RoleOk(s, h, s.role[h], s.core.pc[h])
  }

  lemma UserSess(s: State, k: nat, e: UserStep)
    requires UserGuard(s, k, e) && Silent(e) && SessInv(s, k) && SubjectOk(s, k, e)
    ensures SessInv(UserEffect(s, k, e), k)
  {
  }

  lemma UserRole(s: State, k: nat, e: UserStep)
    requires UserGuard(s, k, e) && Silent(e) && SessInv(s, k) && SubjectOk(s, k, e)
    ensures var s', h := UserEffect(s, k, e), Subject(s, k, e);
            h in s'.role ==> h in s.role && RoleOk(s', h, s'.role[h], s'.core.pc[h])
  {
  }

  lemma UserOnly(s: State, k: nat, e: UserStep)
    requires UserGuard(s, k, e) && Silent(e) && SessInv(s, k) && SubjectOk(s, k, e) && s.role.Keys == s.core.pc.Keys
    ensures var s', h := UserEffect(s, k, e), Subject(s, k, e);
            Only(s, s', h, k) && Unnoticed(s, s', h, k) && (HasRole(s, h, Client) ==> HasRole(s', h, Client))
  {
    var s', h := UserEffect(s, k, e), Subject(s, k, e);
    assert h in s.role ==> s'.role.Keys == s.role.Keys;
  }

  lemma UserOuter(s: State, k: nat, e: UserStep)
    requires Outer(s) && UserGuard(s, k, e) && Silent(e)
    ensures Outer(UserEffect(s, k, e))
  {
    assert SessInv(s, k);
    UserOnly(s, k, e);
    UserSess(s, k, e);
    UserRole(s, k, e);
    OuterKept(s, UserEffect(s, k, e), Subject(s, k, e), k);
  }

  // ---------------------------------------------------------------- new references

  lemma CloneOuter(s: State, u: Tid, r: Role, k: nat)
    requires Outer(s) && u !in s.core.pc
             && (r.Client? || (r == Handle(k, false) && k < |s.sess| && Returned(s.sess[k])))
    ensures Outer(Join(s, u, r))
  {
    var s' := Join(s, u, r);
    BorrowedIsClient(s, u);
    HolderOk(s);
    FrameKept(s, s', u, k);
    forall t | t in s'.role ensures RoleOk(s', t, s'.role[t], s'.core.pc[t]) {
      if t != u { SameRole(s, s', t, s.role[t], s.core.pc[t]); }
    }
    forall i | 0 <= i < |s'.sess| ensures SessInv(s', i) {
      SameSess(s, s', i);
    }
    OnlyFutures(s, s', u, k);
  }

  lemma ClonePreserves(s: State, t: Tid, u: Tid, r: Role, k: nat)
    requires Inv(s) && t in s.core.pc && u !in s.core.pc
    requires r.Client? || (r == Handle(k, false) && k < |s.sess| && Returned(s.sess[k]))
    ensures Inv(Join(s, u, r))
  {
    JoinCore(s.core, t, u);
    CloneOuter(s, u, r, k);
    StopKept(s, Join(s, u, r));
  }

  // ---------------------------------------------------------------- the final drop

  lemma NoFutures(s: State)
    requires Futures(s) && s.role == map[]
    ensures s.futs == map[]
  {
    assert forall f :: f in s.futs ==> FutInv(s, f);
  }

  lemma TearPreserves(s: State, a: C.Action)
    requires Inv(s) && Enabled(s, Tear(a))
    ensures Inv(Apply(s, Tear(a)))
  {
    C.Preserves(s.core, a);
    var s' := Apply(s, Tear(a));
    assert s.role == map[];
    NoFutures(s);
    forall k | 0 <= k < |s'.sess| ensures SessInv(s', k) {
      assert SessInv(s, k);
    }
  }

  // ---------------------------------------------------------------- core steps of drivers and handles

  predicate IsControl(act: C.Act) {
    act.StopSwap? || act.StopEnter? || act.StopEffect? || act.StopExit? || act.ControlEnter? || act.ControlExit?
  }

  lemma ControlCells(g: C.Shared, t: Tid, p: C.Pc, act: C.Act)
    requires C.CanDo(g, p, act) && IsControl(act)
    ensures var (g', p') := C.Did(g, t, p, act);
            && SameCells(g, g') && g'.teardown == g.teardown && g'.fired == g.fired
            && (act.StopSwap? ==> g'.stopRequested && (p'.Resting? || p'.Armed?))
            && (!act.StopSwap? ==> g'.stopRequested == g.stopRequested)
            && (act.StopEnter? || act.StopEffect? ==> p'.Stopping?)
            && (act.StopExit? || act.ControlExit? ==> p'.Resting?)
            && (act.ControlEnter? ==> p'.Controlling?)
            && (g.phase.Running? || g.phase.Done? ==> g'.early == g.early)
  {
  }

  /** The state after a driver or handle took a core step. */
  predicate Moved(s: State, s': State, t: Tid, act: C.Act) {
    && t in s.core.pc && C.CanDo(s.core.g, s.core.pc[t], act) && Permits(s, t, act)
    && var (g', p') := C.Did(s.core.g, t, s.core.pc[t], act);
       s' == DoEffect(s, t, act, false).(core := C.State(g', s.core.pc[t := p']))
  }

  lemma DriverDoLocal(s: State, s': State, t: Tid, k: nat, act: C.Act)
    requires HasRole(s, t, Driver(k)) && Moved(s, s', t, act)
    requires RoleOk(s, t, s.role[t], s.core.pc[t]) && SessInv(s, k)
    ensures IsControl(act) && s.sess[k].starts == 1
    ensures RoleOk(s', t, s'.role[t], s'.core.pc[t]) && SessInv(s', k)
    ensures SameCells(s.core.g, s'.core.g)
    ensures s' == s.(core := s'.core, sess := s.sess[k := s.sess[k].(at := s'.sess[k].at)])
    ensures PastClear(s'.sess[k].at) == PastClear(s.sess[k].at) && s'.sess[k].at.Unspawned? == s.sess[k].at.Unspawned?
  {
    ControlCells(s.core.g, t, s.core.pc[t], act);
    assert s.sess == s.sess[k := s.sess[k]];
  }

  lemma DriverDoOuter(s: State, s': State, t: Tid, k: nat, act: C.Act)
    requires Outer(s) && t in s.role && t in s.core.pc && s.role[t] == Driver(k) && k < |s.sess|
    requires SameCells(s.core.g, s'.core.g) && t in s'.core.pc && s'.core.pc == s.core.pc[t := s'.core.pc[t]]
    requires k < |s'.sess| && RoleOk(s', t, Driver(k), s'.core.pc[t]) && SessInv(s', k)
    requires s' == s.(core := s'.core, sess := s.sess[k := s.sess[k].(at := s'.sess[k].at)])
    requires PastClear(s'.sess[k].at) == PastClear(s.sess[k].at) && s'.sess[k].at.Unspawned? == s.sess[k].at.Unspawned?
    ensures Outer(s')
  {
    assert RoleOk(s, t, s.role[t], s.core.pc[t]);
    OuterKept(s, s', t, k);
  }

  lemma HandleDoLocal(s: State, s': State, t: Tid, k: nat, c: bool, act: C.Act)
    requires HasRole(s, t, Handle(k, c)) && Moved(s, s', t, act)
    requires RoleOk(s, t, s.role[t], s.core.pc[t]) && SessInv(s, k)
    ensures IsControl(act) && s.sess[k].starts == 1
    ensures HasRole(s', t, Handle(k, s'.role[t].cancelling))
    ensures RoleOk(s', t, s'.role[t], s'.core.pc[t]) && SessInv(s', k)
    ensures SameCells(s.core.g, s'.core.g)
    ensures s' == s.(core := s'.core, role := s.role[t := s'.role[t]])
  {
    ControlCells(s.core.g, t, s.core.pc[t], act);
    assert s.role == s.role[t := s.role[t]];
  }

  lemma HandleDoOuter(s: State, s': State, t: Tid, k: nat, c: bool, c': bool, act: C.Act)
    requires Outer(s) && t in s.role && t in s.core.pc && s.role[t] == Handle(k, c) && k < |s.sess|
    requires SameCells(s.core.g, s'.core.g) && t in s'.core.pc && s'.core.pc == s.core.pc[t := s'.core.pc[t]]
    requires k < |s'.sess| && RoleOk(s', t, Handle(k, c'), s'.core.pc[t]) && SessInv(s', k)
    requires s' == s.(core := s'.core, role := s.role[t := Handle(k, c')])
    ensures Outer(s')
  {
    OuterKept(s, s', t, k);
  }

  // ---------------------------------------------------------------- core steps of jobs

  lemma JobDoLocal(s: State, s': State, t: Tid, op: C.Op, b: bool, act: C.Act)
    requires HasRole(s, t, Job(op, b)) && Moved(s, s', t, act)
    requires RoleOk(s, t, s.role[t], s.core.pc[t]) && C.ThreadInv(s.core.g, t, s.core.pc[t])
    ensures s'.role == s.role[t := Job(op, b || act.Lock?)] && s' == s.(core := s'.core, role := s'.role)
    ensures RoleOk(s', t, s'.role[t], s'.core.pc[t])
    ensures s'.core.g == s.core.g.(mutex := s'.core.g.mutex, lifecycle := s'.core.g.lifecycle)
    ensures s'.core.g.lifecycle == s.core.g.lifecycle
            || ((s.core.g.lifecycle.New? || s.core.g.lifecycle.Ready?) && s'.core.g.lifecycle.Ready?)
  {
    assert s.role == s.role[t := s.role[t]];
  }

  /** While a job runs, every session there was has finished. */
  lemma JobMeansIdle(s: State, t: Tid)
    requires Outer(s) && t in s.role && s.role[t].Job?
    ensures s.setup == Some(ByJob(t)) && !s.active
    ensures |s.sess| > 0 ==> s.core.g.lifecycle.Finished?
  {
    assert RoleOk(s, t, s.role[t], s.core.pc[t]);
    if |s.sess| > 0 { assert SessInv(s, |s.sess| - 1); }
  }

  lemma JobDoSame(s: State, s': State, t: Tid, op: C.Op, b: bool, b': bool)
    requires Outer(s) && HasRole(s, t, Job(op, b)) && t in s'.core.pc && s'.core.pc == s.core.pc[t := s'.core.pc[t]]
    requires s' == s.(core := s'.core, role := s.role[t := Job(op, b')]) && RoleOk(s', t, Job(op, b'), s'.core.pc[t])
    requires SameCells(s.core.g, s'.core.g)
    ensures Outer(s')
  {
    BorrowedIsClient(s, t);
    HolderOk(s);
    FrameKept(s, s', t, |s.sess|);
    OnlyParts(s, s', t, |s.sess|);
  }

  lemma JobDoReady(s: State, s': State, t: Tid, op: C.Op, b: bool, b': bool)
    requires Outer(s) && HasRole(s, t, Job(op, b)) && t in s'.core.pc && s'.core.pc == s.core.pc[t := s'.core.pc[t]]
    requires s' == s.(core := s'.core, role := s.role[t := Job(op, b')]) && RoleOk(s', t, Job(op, b'), s'.core.pc[t])
    requires s.sess == [] && s'.core.g.lifecycle.Ready?
    ensures Outer(s')
  {
    assert RoleOk(s, t, s.role[t], s.core.pc[t]);
    forall u | u in s'.role ensures RoleOk(s', u, s'.role[u], s'.core.pc[u]) {
      if u != t { assert RoleOk(s, u, s.role[u], s.core.pc[u]); }
    }
    BorrowedIsClient(s, t);
    forall g | g in s'.futs ensures FutInv(s', g) {
      assert FutInv(s, g);
      SameFut(s, s', g);
    }
  }

  // ---------------------------------------------------------------- core steps of workers

  /** Where a worker stands, and what it may do there. */
  predicate WorkerAt(g: C.Shared, t: Tid, k: nat, b: bool, p: C.Pc, starts: nat, act: C.Act) {
    && WorkerOk(g, k, b, p, starts) && C.ThreadInv(g, t, p) && C.SharedInv(g) && C.CanDo(g, p, act)
    && (k > 0 ==> g.lifecycle.Finished?)
    && (act.Lock? ==> !b && act.op == C.Connect(true)) && !act.StopSwap? && !act.ControlEnter?
  }

  /** The worker's own step keeps its account of the start signal. */
  lemma WorkerKept(g: C.Shared, t: Tid, k: nat, b: bool, p: C.Pc, starts: nat, act: C.Act)
    requires WorkerAt(g, t, k, b, p, starts, act)
    ensures var (g', p') := C.Did(g, t, p, act);
            WorkerOk(g', k, b || act.Lock?, p', starts + if g'.fired > g.fired then 1 else 0)
  {
    if act.Decide? {
    } else if act.Lock? {
    }
  }

  /** Only the first worker changes the cells that others rely on. */
  lemma WorkerCells(g: C.Shared, t: Tid, k: nat, b: bool, p: C.Pc, starts: nat, act: C.Act)
    requires WorkerAt(g, t, k, b, p, starts, act)
    ensures var g' := C.Did(g, t, p, act).0;
            && (!g'.lifecycle.New? || g.lifecycle.New?) && (g.lifecycle.Finished? ==> g'.lifecycle.Finished?)
            && (g'.stopRequested == g.stopRequested || (k == 0 && starts == 0 && !g'.stopRequested))
            && (k > 0 ==> SameCells(g, g'))
            && (g'.fired > g.fired && k == 0 ==> g'.phase.Running? || g'.phase.Done?)
            && g'.early == g.early && g'.teardown == g.teardown
  {
    if act.Decide? {
    } else if act.Lock? {
    }
  }

  lemma WorkerDoLocal(s: State, g': C.Shared, p': C.Pc, t: Tid, k: nat, b: bool, act: C.Act)
    requires HasRole(s, t, Worker(k, b)) && t in s.core.pc && C.CanDo(s.core.g, s.core.pc[t], act) && Permits(s, t, act)
    requires (g', p') == C.Did(s.core.g, t, s.core.pc[t], act)
    requires RoleOk(s, t, s.role[t], s.core.pc[t]) && C.ThreadInv(s.core.g, t, s.core.pc[t]) && C.SharedInv(s.core.g)
    requires k > 0 ==> s.core.g.lifecycle.Finished?
    ensures WorkerOk(g', k, b || act.Lock?, p', s.sess[k].starts + if g'.fired > s.core.g.fired then 1 else 0)
    ensures !g'.lifecycle.New? || s.core.g.lifecycle.New?
    ensures s.core.g.lifecycle.Finished? ==> g'.lifecycle.Finished?
    ensures g'.stopRequested == s.core.g.stopRequested || (k == 0 && s.sess[k].starts == 0 && !g'.stopRequested)
    ensures k > 0 ==> SameCells(s.core.g, g')
    ensures g'.fired > s.core.g.fired && k == 0 ==> g'.phase.Running? || g'.phase.Done?
    ensures g'.early == s.core.g.early && g'.teardown == s.core.g.teardown
  {
    WorkerKept(s.core.g, t, k, b, s.core.pc[t], s.sess[k].starts, act);
    WorkerCells(s.core.g, t, k, b, s.core.pc[t], s.sess[k].starts, act);
  }

  lemma WorkerSess(s: State, s': State, k: nat)
    requires k < |s.sess| && |s'.sess| == |s.sess| && SessInv(s, k) && !s.sess[k].joined
    requires s'.sess[k].starts == 1 || s'.sess[k].starts == s.sess[k].starts
    requires s'.sess[k] == s.sess[k].(starts := s'.sess[k].starts)
    requires s'.core.g.stopRequested == s.core.g.stopRequested || s.sess[k].starts == 0
    requires s.sess[k].worker in s'.role && s'.role[s.sess[k].worker].Worker? && s'.role[s.sess[k].worker].k == k
    requires s'.role == s.role[s.sess[k].worker := s'.role[s.sess[k].worker]]
    requires s.role[s.sess[k].worker].Worker?
    ensures SessInv(s', k)
  {
  }

  predicate WorkerMoved(s: State, s': State, t: Tid, k: nat, b': bool) {
    && k < |s.sess| && t in s.role && s.role[t].Worker? && s.role[t].k == k
    && t in s'.core.pc && s'.core.pc == s.core.pc[t := s'.core.pc[t]]
    && |s'.sess| == |s.sess| && s'.sess == s.sess[k := s.sess[k].(starts := s'.sess[k].starts)]
    && s' == s.(core := s'.core, role := s.role[t := Worker(k, b')], sess := s'.sess)
    && RoleOk(s', t, Worker(k, b'), s'.core.pc[t]) && SessInv(s', k)
  }

  lemma SecondWorkerOuter(s: State, s': State, t: Tid, k: nat, b': bool)
    requires Outer(s) && WorkerMoved(s, s', t, k, b') && SameCells(s.core.g, s'.core.g)
    ensures Outer(s')
  {
    assert RoleOk(s, t, s.role[t], s.core.pc[t]);
    OuterKept(s, s', t, k);
  }

  lemma FirstWorkerOuter(s: State, s': State, t: Tid, b': bool)
    requires Outer(s) && WorkerMoved(s, s', t, 0, b')
    requires !s'.core.g.lifecycle.New?
    ensures Outer(s')
  {
    assert RoleOk(s, t, s.role[t], s.core.pc[t]);
    assert SessInv(s, 0);
    assert |s.sess| == 1;
    forall u | u in s'.role ensures RoleOk(s', u, s'.role[u], s'.core.pc[u]) {
      if u != t { assert RoleOk(s, u, s.role[u], s.core.pc[u]); }
    }
    BorrowedIsClient(s, t);
    forall g | g in s'.futs ensures FutInv(s', g) {
      assert FutInv(s, g);
      SameFut(s, s', g);
    }
  }
}
