/** The inductive invariant of the Tokio layer and its preservation by every step. */
module TokioInvariant {
  import opened Options
  import C = ClientCore
  import opened TokioSession

  // ---------------------------------------------------------------- what each part satisfies

  predicate JobOk(op: C.Op, begun: bool, p: C.Pc) {
    && !op.Connect?
    && match p
       case Resting => true
       case Locked(o) => begun && o == op
       case Evaluating => begun && op.Evaluate?
       case Crediting => begun && op.Credentials?
       case _ => false
  }

  /** Only the first worker gets past the lifecycle check; its start signal fires exactly when
      native Core gives up the callback. */
  predicate WorkerOk(g: C.Shared, k: nat, begun: bool, p: C.Pc, starts: nat) {
    match p
    case Resting =>
      && starts == (if begun then 1 else 0) && (begun ==> g.lifecycle.Finished?)
      && (k == 0 && !begun ==> g.lifecycle.Ready?)
    case Locked(o) => begun && o == C.Connect(true) && starts == 0 && (k == 0 ==> g.lifecycle.Ready?)
    case Marked(b) => begun && b && k == 0 && starts == 0
    case Prepared(b) => begun && b && k == 0 && starts == 0
    case InConnect =>
      && begun && k == 0 && starts == (if g.registered then 0 else 1)
      && (g.phase.SettingUp? || g.phase.Reachable? ==> g.registered)
      && (g.phase.Running? ==> !g.registered)
    case Leaving => begun && k == 0 && starts == 1
    case _ => false
  }

  predicate DriverOk(at: Drive, p: C.Pc) {
    match p
    case Resting => !at.Unspawned? && !at.Exited?
    case Armed => at.Halting? && at.swapped
    case Stopping(_) => at.Halting? && at.swapped
    case Controlling => at == Commanding(true)
    case _ => false
  }

  predicate HandleOk(x: Sess, cancelling: bool, p: C.Pc) {
    && Returned(x)
    && (p.Resting? || ((p.Armed? || p.Stopping?) && !cancelling))
    && (cancelling ==> x.token)
  }

  predicate RoleOk(s: State, t: Tid, r: Role, p: C.Pc) {
    match r
    case Client => p.Resting?
    case Job(op, begun) => s.setup == Some(ByJob(t)) && JobOk(op, begun, p)
    case Worker(k, begun) =>
      k < |s.sess| && s.sess[k].worker == t && !s.sess[k].joined && WorkerOk(s.core.g, k, begun, p, s.sess[k].starts)
    case Driver(k) => k < |s.sess| && s.sess[k].driver == t && DriverOk(s.sess[k].at, p)
    case Handle(k, cancelling) => k < |s.sess| && HandleOk(s.sess[k], cancelling, p)
  }

  predicate PastClear(at: Drive) {
    at.Sending? || at.Exited?
  }

  predicate Quitting(at: Drive) {
    at == Halting(Guard, false) || at == Halting(Guard, true) || at.Clearing? || PastClear(at)
  }

  predicate Stopped(at: Drive) {
    (at.Halting? && at.swapped) || at.Joining? || at.Clearing? || PastClear(at)
  }

  /** What one session says about the shared cells. */
  predicate SessOk(finished: bool, stopRequested: bool, x: Sess) {
    && x.starts <= 1
    && (x.joined ==> finished && x.starts == 1)
    && (Quitting(x.at) ==> x.joined)
    && (x.at.Halting? || x.at.Commanding? || x.at.Joining? ==> x.starts == 1)
    && (Stopped(x.at) ==> stopRequested)
    && (x.token ==> Returned(x))
    && (Returned(x) ==> x.starts == 1 && !x.at.Unspawned?)
    && (x.front.Resolved? || x.front == Gone(false) ==> x.at.Exited?)
    && (x.front == Gone(true) ==> x.token && stopRequested)
    && (x.front.Dropping? ==> x.token)
  }

  predicate SessInv(s: State, k: nat)
    requires k < |s.sess|
  {
    var x := s.sess[k];
    && SessOk(s.core.g.lifecycle.Finished?, s.core.g.stopRequested, x)
    && (!x.joined ==> x.worker in s.role && s.role[x.worker].Worker? && s.role[x.worker].k == k)
    && (!x.at.Unspawned? && !x.at.Exited? ==> HasRole(s, x.driver, Driver(k)))
    && (HasHandle(x.front) ==> x.front.h in s.role && s.role[x.front.h].Handle? && s.role[x.front.h].k == k)
    && (x.front.Dropping? ==> s.role[x.front.h].cancelling || s.core.g.stopRequested)
  }

  predicate HoldsSetup(at: Stage) {
    at.Holding? || at.Checked? || at.Claimed? || at.Launched? || at.AwaitingStart?
  }

  predicate StageOk(lifecycle: C.Lifecycle, sess: seq<Sess>, at: Stage) {
    match at
    case Queued(op) => op != C.Connect(false)
    case Holding(op) => op != C.Connect(false)
    case Checked => (|sess| == 0 && lifecycle.Ready?) || (|sess| == 1 && !Returned(sess[0]))
    case Claimed => (|sess| == 0 && lifecycle.Ready?) || (|sess| == 1 && !Returned(sess[0]) && PastClear(sess[0].at))
    case Launched(k) => k + 1 == |sess| && sess[k].at.Unspawned?
    case AwaitingStart(k) => k + 1 == |sess| && !sess[k].at.Unspawned? && !Returned(sess[k])
    case AwaitingJob(_) => true
  }

  predicate FutInv(s: State, f: Fid)
    requires f in s.futs
  {
    && HasRole(s, s.futs[f].client, Client)
    && (HoldsSetup(s.futs[f].at) <==> s.setup == Some(ByFuture(f)))
    && StageOk(s.core.g.lifecycle, s.sess, s.futs[f].at)
  }

  predicate Holder(s: State, at: Stage) {
    s.setup.Some? && s.setup.value.ByFuture? && s.setup.value.f in s.futs && s.futs[s.setup.value.f].at == at
  }

  predicate SetupInv(s: State) {
    match s.setup
    case None => true
    case Some(ByFuture(f)) => f in s.futs && HoldsSetup(s.futs[f].at)
    case Some(ByJob(t)) => t in s.role && s.role[t].Job? && !s.active
  }

  predicate CountInv(s: State) {
    && |s.sess| <= 2
    && (|s.sess| == 0 ==> s.core.g.lifecycle.New? || s.core.g.lifecycle.Ready?)
    && (|s.sess| > 0 ==> !s.core.g.lifecycle.New?)
    && (|s.sess| == 2 ==>
        s.core.g.lifecycle.Finished? && s.sess[0].joined && !Returned(s.sess[0]) && PastClear(s.sess[0].at))
    && (|s.sess| > 0 && s.sess[|s.sess| - 1].at.Unspawned? ==> Holder(s, Launched(|s.sess| - 1)))
  }

  predicate ActiveInv(s: State) {
    s.active <==> (|s.sess| > 0 && !PastClear(s.sess[|s.sess| - 1].at)) || Holder(s, Claimed)
  }

  /** Nothing stops before the first session has started, and nothing is lost afterwards. */
  ghost predicate StopInv(s: State) {
    && s.core.g.early == 0
    && (s.core.g.teardown.Alive? && (|s.sess| == 0 || s.sess[0].starts == 0) ==> !s.core.g.stopRequested)
    && (|s.sess| > 0 && s.sess[0].starts > 0 ==>
          && (s.core.g.phase.Running? || s.core.g.phase.Done?)
          && (C.Lost(s.core) ==> s.core.g.phase.Done?))
  }

  ghost predicate Threads(s: State) {
    s.role.Keys == s.core.pc.Keys && forall t :: t in s.role ==> RoleOk(s, t, s.role[t], s.core.pc[t])
  }

  ghost predicate Sessions(s: State) {
    forall k :: 0 <= k < |s.sess| ==> SessInv(s, k)
  }

  ghost predicate Futures(s: State) {
    forall f :: f in s.futs ==> FutInv(s, f)
  }

  /** Everything but the facts about the blocking client itself. */
  ghost predicate Outer(s: State) {
    Threads(s) && Sessions(s) && Futures(s) && SetupInv(s) && CountInv(s) && ActiveInv(s)
  }

  ghost predicate Inv(s: State) {
    C.Inv(s.core) && Outer(s) && StopInv(s)
  }

  lemma InitialHolds()
    ensures Inv(INITIAL)
  {
    C.InitialHolds();
  }

  // ---------------------------------------------------------------- frames

  /** The facts that do not quantify over threads, sessions or futures. */
  predicate Frame(s: State) {
    s.role.Keys == s.core.pc.Keys && SetupInv(s) && CountInv(s) && ActiveInv(s)
  }

  predicate Concerns(r: Role, k: nat) {
    (r.Worker? || r.Driver? || r.Handle?) && r.k == k
  }

  /** The threads of session `k` keep their roles. */
  ghost predicate Agree(role: map<Tid, Role>, role': map<Tid, Role>, k: nat) {
    forall t :: t in role && Concerns(role[t], k) ==> t in role' && role'[t] == role[t]
  }

  /** The shared cells that threads and sessions rely on; a stop request may be added. */
  predicate SameCells(g: C.Shared, g': C.Shared) {
    && g'.lifecycle == g.lifecycle && g'.phase == g.phase && g'.registered == g.registered
    && (g.stopRequested ==> g'.stopRequested)
  }

  lemma SameSess(s: State, s': State, k: nat)
    requires k < |s.sess| && k < |s'.sess| && SessInv(s, k)
    requires s'.sess[k] == s.sess[k] && Agree(s.role, s'.role, k)
    requires SameCells(s.core.g, s'.core.g)
    ensures SessInv(s', k)
  {
  }

  lemma SameRole(s: State, s': State, t: Tid, r: Role, p: C.Pc)
    requires RoleOk(s, t, r, p)
    requires s'.sess == s.sess && SameCells(s.core.g, s'.core.g) && (r.Job? ==> s'.setup == s.setup)
    ensures RoleOk(s', t, r, p)
  {
  }

  /** Changing session `k` without touching its worker leaves the other threads in order. */
  lemma RoleAfterSess(s: State, s': State, k: nat, t: Tid, r: Role, p: C.Pc)
    requires RoleOk(s, t, r, p) && k < |s.sess| && SameCells(s.core.g, s'.core.g) && (r.Job? ==> s'.setup == s.setup)
    requires |s'.sess| == |s.sess| && s'.sess == s.sess[k := s'.sess[k]]
    requires s'.sess[k].worker == s.sess[k].worker && s'.sess[k].joined == s.sess[k].joined
    requires s'.sess[k].starts == s.sess[k].starts
    requires r == Driver(k) ==> s'.sess[k].driver == t && DriverOk(s'.sess[k].at, p)
    requires Returned(s.sess[k]) ==> Returned(s'.sess[k])
    requires s.sess[k].token ==> s'.sess[k].token
    ensures RoleOk(s', t, r, p)
  {
  }

  lemma SameFut(s: State, s': State, g: Fid)
    requires g in s.futs && g in s'.futs && s'.futs[g] == s.futs[g] && FutInv(s, g)
    requires HasRole(s', s.futs[g].client, Client)
    requires s'.setup == Some(ByFuture(g)) <==> s.setup == Some(ByFuture(g))
    requires HoldsSetup(s.futs[g].at) ==> StageOk(s'.core.g.lifecycle, s'.sess, s.futs[g].at)
    ensures FutInv(s', g)
  {
  }

  // ---------------------------------------------------------------- futures that spawn nothing

  lemma PlainFutureParts(s: State, f: Fid, e: FutureStep)
    requires Threads(s) && Sessions(s) && Futures(s) && FutureGuard(s, f, e) && Spawned(s, e).None?
    ensures var s' := FutureEffect(s, f, e);
            && s'.core == s.core && s'.sess == s.sess && s'.role == s.role
            && Threads(s') && Sessions(s')
  {
    var s' := FutureEffect(s, f, e);
    if f in s.futs { assert FutInv(s, f); }
    forall t | t in s'.role ensures RoleOk(s', t, s'.role[t], s'.core.pc[t]) {
      SameRole(s, s', t, s.role[t], s.core.pc[t]);
    }
    forall k | 0 <= k < |s'.sess| ensures SessInv(s', k) {
      SameSess(s, s', k);
    }
  }

  lemma PlainFutureFrame(s: State, f: Fid, e: FutureStep)
    requires Frame(s) && FutureGuard(s, f, e) && Spawned(s, e).None? && (f in s.futs ==> FutInv(s, f))
    ensures Frame(FutureEffect(s, f, e))
  {
  }

  lemma PlainFutureFut(s: State, f: Fid, e: FutureStep, g: Fid)
    requires Frame(s) && FutureGuard(s, f, e) && Spawned(s, e).None? && (f in s.futs ==> FutInv(s, f))
    requires g in s.futs ==> FutInv(s, g)
    requires |s.sess| > 0 && Returned(s.sess[0]) ==> !s.core.g.lifecycle.Ready?
    ensures g in FutureEffect(s, f, e).futs ==> FutInv(FutureEffect(s, f, e), g)
  {
  }

  lemma PlainFuture(s: State, f: Fid, e: FutureStep)
    requires Inv(s) && FutureGuard(s, f, e) && Spawned(s, e).None?
    ensures Inv(FutureEffect(s, f, e))
  {
    PlainFutureParts(s, f, e);
    PlainFutureFrame(s, f, e);
    assert |s.sess| > 0 ==> SessInv(s, 0);
    forall g | g in FutureEffect(s, f, e).futs ensures FutInv(FutureEffect(s, f, e), g) {
      PlainFutureFut(s, f, e, g);
    }
  }

  // ---------------------------------------------------------------- futures that spawn

  /** `s` with thread `u` added in role `r`, holding a new resting reference. */
  function Join(s: State, u: Tid, r: Role): State {
    s.(role := s.role[u := r], core := s.core.(pc := s.core.pc[u := C.Resting]))
  }

  lemma JoinCore(core: C.State, client: Tid, u: Tid)
    requires C.Inv(core) && client in core.pc && u !in core.pc
    ensures C.Inv(core.(pc := core.pc[u := C.Resting]))
    ensures C.Lost(core.(pc := core.pc[u := C.Resting])) ==> C.Lost(core)
  {
    C.Preserves(core, C.Clone(client, u));
    var core' := core.(pc := core.pc[u := C.Resting]);
    if C.Pending(core) {
      var t :| t in core.pc && (core.pc[t].Armed? || core.pc[t] == C.Stopping(false));
      assert t in core'.pc && (core'.pc[t].Armed? || core'.pc[t] == C.Stopping(false));
    }
  }

  /** The holder of the setup guard advances to `stage`, adding thread `u` and setting the sessions. */
  function Launch(s: State, f: Fid, stage: Stage, setup: Option<Owner>, u: Tid, r: Role, sess: seq<Sess>): State
    requires f in s.futs
  {
    Join(Advance(s, f, stage).(setup := setup, sess := sess), u, r)
  }

  lemma SpawnJobParts(s: State, s': State, f: Fid, u: Tid)
    requires Threads(s) && Sessions(s) && Futures(s) && FutureGuard(s, f, CheckIdle(u)) && u !in s.core.pc
    requires s' == Launch(s, f, AwaitingJob(u), Some(ByJob(u)), u, Job(s.futs[f].at.op, false), s.sess)
    ensures Threads(s') && Sessions(s') && Futures(s')
  {
    assert FutInv(s, f);
    forall t | t in s'.role ensures RoleOk(s', t, s'.role[t], s'.core.pc[t]) {
      if t != u { SameRole(s, s', t, s.role[t], s.core.pc[t]); }
    }
    forall k | 0 <= k < |s'.sess| ensures SessInv(s', k) {
      SameSess(s, s', k);
    }
    forall g | g in s'.futs ensures FutInv(s', g) {
      if g != f { SameFut(s, s', g); }
    }
  }

  lemma SpawnJobPreserves(s: State, f: Fid, u: Tid)
    requires Inv(s) && FutureGuard(s, f, CheckIdle(u)) && !s.active && u !in s.core.pc
    ensures Inv(Launch(s, f, AwaitingJob(u), Some(ByJob(u)), u, Job(s.futs[f].at.op, false), s.sess))
  {
    assert FutInv(s, f);
    JoinCore(s.core, s.futs[f].client, u);
    SpawnJobParts(s, Launch(s, f, AwaitingJob(u), Some(ByJob(u)), u, Job(s.futs[f].at.op, false), s.sess), f, u);
  }

  lemma SpawnWorkerParts(s: State, s': State, f: Fid, w: Tid)
    requires f in s.futs
    requires Threads(s) && Sessions(s) && CountInv(s) && FutInv(s, f) && FutureGuard(s, f, SpawnWorker(w))
             && w !in s.core.pc
    requires s' == Launch(s, f, Launched(|s.sess|), s.setup, w, Worker(|s.sess|, false),
                          s.sess + [Sess(w, w, Unspawned, 0, false, false, Unreturned)])
    ensures Threads(s') && Sessions(s')
  {
    forall t | t in s'.role ensures RoleOk(s', t, s'.role[t], s'.core.pc[t]) {
      if t != w { assert RoleOk(s, t, s.role[t], s.core.pc[t]); }
    }
    forall k | 0 <= k < |s'.sess| ensures SessInv(s', k) {
      if k < |s.sess| { SameSess(s, s', k); }
    }
  }

  lemma SpawnWorkerFrame(s: State, f: Fid, w: Tid)
    requires Frame(s) && FutureGuard(s, f, SpawnWorker(w)) && w !in s.core.pc && FutInv(s, f)
    requires |s.sess| > 0 ==> SessInv(s, 0)
    ensures Frame(Launch(s, f, Launched(|s.sess|), s.setup, w, Worker(|s.sess|, false),
                         s.sess + [Sess(w, w, Unspawned, 0, false, false, Unreturned)]))
  {
  }

  lemma SpawnWorkerPreserves(s: State, f: Fid, w: Tid)
    requires Inv(s) && FutureGuard(s, f, SpawnWorker(w)) && w !in s.core.pc
    ensures Inv(Launch(s, f, Launched(|s.sess|), s.setup, w, Worker(|s.sess|, false),
                       s.sess + [Sess(w, w, Unspawned, 0, false, false, Unreturned)]))
  {
    assert FutInv(s, f);
    assert |s.sess| > 0 ==> SessInv(s, 0);
    JoinCore(s.core, s.futs[f].client, w);
    var s' := Launch(s, f, Launched(|s.sess|), s.setup, w, Worker(|s.sess|, false),
                     s.sess + [Sess(w, w, Unspawned, 0, false, false, Unreturned)]);
    SpawnWorkerParts(s, s', f, w);
    SpawnWorkerFrame(s, f, w);
    SpawnWorkerFuts(s, s', f, w);
  }

  lemma SpawnWorkerFuts(s: State, s': State, f: Fid, w: Tid)
    requires Futures(s) && FutureGuard(s, f, SpawnWorker(w)) && w !in s.role
    requires s' == Launch(s, f, Launched(|s.sess|), s.setup, w, Worker(|s.sess|, false),
                          s.sess + [Sess(w, w, Unspawned, 0, false, false, Unreturned)])
    ensures Futures(s')
  {
    assert FutInv(s, f);
    forall g | g in s'.futs ensures FutInv(s', g) {
      if g != f { SameFut(s, s', g); }
    }
  }

  lemma SpawnDriverThreads(s: State, s': State, f: Fid, d: Tid, k: nat)
    requires Threads(s) && Sessions(s) && FutureGuard(s, f, SpawnDriver(d)) && d !in s.core.pc
    requires k == s.futs[f].at.k && FutInv(s, f)
    requires s' == Launch(s, f, AwaitingStart(k), s.setup, d, Driver(k),
                          s.sess[k := s.sess[k].(driver := d, at := Selecting)])
    ensures Threads(s') && Sessions(s')
  {
    assert SessInv(s, k);
    forall t | t in s'.role ensures RoleOk(s', t, s'.role[t], s'.core.pc[t]) {
      if t != d { RoleAfterSess(s, s', k, t, s.role[t], s.core.pc[t]); }
    }
    forall i | 0 <= i < |s'.sess| ensures SessInv(s', i) {
      if i != k { SameSess(s, s', i); }
    }
  }

  lemma SpawnDriverParts(s: State, s': State, f: Fid, d: Tid, k: nat)
    requires Threads(s) && Sessions(s) && Futures(s) && FutureGuard(s, f, SpawnDriver(d)) && d !in s.core.pc
    requires k == s.futs[f].at.k
    requires s' == Launch(s, f, AwaitingStart(k), s.setup, d, Driver(k),
                          s.sess[k := s.sess[k].(driver := d, at := Selecting)])
    ensures Threads(s') && Sessions(s') && Futures(s')
  {
    assert FutInv(s, f) && SessInv(s, k);
    SpawnDriverThreads(s, s', f, d, k);
    forall g | g in s'.futs ensures FutInv(s', g) {
      if g != f { SameFut(s, s', g); }
    }
  }

  lemma SpawnDriverPreserves(s: State, f: Fid, d: Tid)
    requires Inv(s) && FutureGuard(s, f, SpawnDriver(d)) && d !in s.core.pc
    ensures var k := s.futs[f].at.k;
            Inv(Launch(s, f, AwaitingStart(k), s.setup, d, Driver(k),
                       s.sess[k := s.sess[k].(driver := d, at := Selecting)]))
  {
    assert FutInv(s, f);
    JoinCore(s.core, s.futs[f].client, d);
    var k := s.futs[f].at.k;
    SpawnDriverParts(s, Launch(s, f, AwaitingStart(k), s.setup, d, Driver(k),
                               s.sess[k := s.sess[k].(driver := d, at := Selecting)]), f, d, k);
  }

  function AfterReturn(s: State, f: Fid, h: Tid, k: nat): State
    requires k < |s.sess|
  {
    Join(Finish(s, f), h, Handle(k, false)).(sess := s.sess[k := s.sess[k].(front := Live(h))])
  }

  lemma ReturnSessionThreads(s: State, s': State, f: Fid, h: Tid, k: nat)
    requires Threads(s) && Sessions(s) && FutureGuard(s, f, ReturnSession(h)) && h !in s.core.pc
    requires k == s.futs[f].at.k && s' == AfterReturn(s, f, h, k) && FutInv(s, f)
    ensures Threads(s') && Sessions(s')
  {
    assert SessInv(s, k);
    forall t | t in s'.role ensures RoleOk(s', t, s'.role[t], s'.core.pc[t]) {
      if t != h { RoleAfterSess(s, s', k, t, s.role[t], s.core.pc[t]); }
    }
    forall i | 0 <= i < |s'.sess| ensures SessInv(s', i) {
      if i != k { SameSess(s, s', i); }
    }
  }

  lemma ReturnSessionParts(s: State, s': State, f: Fid, h: Tid, k: nat)
    requires Threads(s) && Sessions(s) && Futures(s) && FutureGuard(s, f, ReturnSession(h)) && h !in s.core.pc
    requires k == s.futs[f].at.k && s' == AfterReturn(s, f, h, k)
    ensures Threads(s') && Sessions(s') && Futures(s')
  {
    assert FutInv(s, f);
    ReturnSessionThreads(s, s', f, h, k);
    forall g | g in s'.futs ensures FutInv(s', g) {
      SameFut(s, s', g);
    }
  }

  lemma ReturnSessionPreserves(s: State, f: Fid, h: Tid)
    requires Inv(s) && FutureGuard(s, f, ReturnSession(h)) && h !in s.core.pc
    ensures Inv(AfterReturn(s, f, h, s.futs[f].at.k))
  {
    assert FutInv(s, f);
    JoinCore(s.core, s.futs[f].client, h);
    ReturnSessionParts(s, AfterReturn(s, f, h, s.futs[f].at.k), f, h, s.futs[f].at.k);
  }

  /** What a step that spawns makes of the state. */
  function AfterSpawn(s: State, f: Fid, e: FutureStep): State
    requires FutureGuard(s, f, e) && Spawned(s, e).Some?
  {
    match e
    case CheckIdle(u) => Launch(s, f, AwaitingJob(u), Some(ByJob(u)), u, Job(s.futs[f].at.op, false), s.sess)
    case SpawnWorker(w) =>
      Launch(s, f, Launched(|s.sess|), s.setup, w, Worker(|s.sess|, false),
             s.sess + [Sess(w, w, Unspawned, 0, false, false, Unreturned)])
    case SpawnDriver(d) =>
      var k := s.futs[f].at.k;
      Launch(s, f, AwaitingStart(k), s.setup, d, Driver(k), s.sess[k := s.sess[k].(driver := d, at := Selecting)])
    case ReturnSession(h) => AfterReturn(s, f, h, s.futs[f].at.k)
  }

  lemma SpawnApplies(s: State, f: Fid, e: FutureStep)
    requires Enabled(s, ByFut(f, e)) && Spawned(s, e).Some?
    ensures Apply(s, ByFut(f, e)) == AfterSpawn(s, f, e)
  {
  }

  lemma SpawnPreserves(s: State, f: Fid, e: FutureStep)
    requires Inv(s) && FutureGuard(s, f, e) && Spawned(s, e).Some? && Spawned(s, e).value !in s.core.pc
    ensures Inv(AfterSpawn(s, f, e))
  {
    match e
    case CheckIdle(u) => SpawnJobPreserves(s, f, u);
    case SpawnWorker(w) => SpawnWorkerPreserves(s, f, w);
    case SpawnDriver(d) => SpawnDriverPreserves(s, f, d);
    case ReturnSession(h) => ReturnSessionPreserves(s, f, h);
  }

  lemma FuturePreserves(s: State, f: Fid, e: FutureStep)
    requires Inv(s) && Enabled(s, ByFut(f, e))
    ensures Inv(Apply(s, ByFut(f, e)))
  {
    if Spawned(s, e).None? {
      PlainFuture(s, f, e);
      assert Apply(s, ByFut(f, e)) == FutureEffect(s, f, e);
    } else {
      SpawnApplies(s, f, e);
      SpawnPreserves(s, f, e);
    }
  }
}
