/**
 The Tokio layer over the blocking client: futures that may be dropped at any await, the setup
 mutex whose guard moves into blocking jobs, the `session_active` flag, and for every spawned
 session a blocking worker, a driver task, a cancellation token and the returned Session.
 Core threads take exactly the atomic steps of `ClientCore`, each restricted by its role.
 */
module TokioSession {
  import opened Options
  import C = ClientCore

  type Tid = C.Tid
  type Fid = nat

  /** Where a pending `evaluate`, `provide_credentials` or `connect` future stands. */
  datatype Stage =
    | Queued(op: C.Op)        // awaiting the setup mutex
    | Holding(op: C.Op)       // has the guard, nothing checked yet
    | Checked                 // connect: ensure_connectable passed
    | Claimed                 // connect: compare_exchange succeeded
    | Launched(k: nat)        // connect: worker spawned, driver not yet
    | AwaitingStart(k: nat)   // connect: awaiting the one-shot start signal
    | AwaitingJob(t: Tid)     // evaluate, credentials: awaiting the blocking job

  datatype Fut = Fut(client: Tid, at: Stage)

  datatype Owner = ByFuture(f: Fid) | ByJob(t: Tid)

  /** What a core reference is used for. */
  datatype Role =
    | Client
    | Job(op: C.Op, begun: bool)
    | Worker(k: nat, begun: bool)
    | Driver(k: nat)
    | Handle(k: nat, cancelling: bool)  // a SessionHandle; cancelling: token set, stop() still to run

  datatype Why = Cancelled | Command | Guard

  datatype Drive =
    | Unspawned
    | Selecting
    | Halting(why: Why, swapped: bool)  // running core.stop()
    | Commanding(entered: bool)         // running any other command
    | Joining                           // awaiting the worker after a cancellation
    | Clearing                          // stop done, about to clear session_active
    | Sending                           // about to send the result
    | Exited

  /** The Session value as its user sees it. */
  datatype Front =
    | Unreturned
    | Live(h: Tid)
    | Resolved(h: Tid)
    | Dropping(h: Tid)
    | Gone(cancelled: bool)

  datatype Sess = Sess(worker: Tid, driver: Tid, at: Drive, starts: nat, joined: bool, token: bool, front: Front)

  datatype State = State(
    core: C.State,
    role: map<Tid, Role>,
    futs: map<Fid, Fut>,
    setup: Option<Owner>,
    active: bool,
    sess: seq<Sess>
  )

  const INITIAL: State := State(C.INITIAL, map[0 := Client], map[], None, false, [])

  datatype FutureStep =
    | Call(t: Tid, op: C.Op)
    | LockSetup
    | CheckIdle(u: Tid)
    | CheckConnectable
    | Claim
    | SpawnWorker(w: Tid)
    | SpawnDriver(d: Tid)
    | ReturnSession(h: Tid)
    | FinishAwait
    | DropFuture

  datatype DriverStep =
    | TakeJoin
    | TakeCancel
    | TakeStop
    | TakeControl
    | Halted
    | CommandDone
    | Clear
    | Send

  datatype UserStep =
    | TokenCancel
    | CloneHandle(h: Tid, u: Tid)
    | Cancel(h: Tid)
    | DropHandle(h: Tid)
    | Resolve
    | DropSession
    | ReleaseSession

  datatype Step =
    | CloneClient(t: Tid, u: Tid)
    | DropClient(t: Tid)
    | ByFut(f: Fid, fs: FutureStep)
    | JobReturns(t: Tid)
    | Do(t: Tid, act: C.Act)
    | WorkerReturns(k: nat)
    | ByDriver(k: nat, ds: DriverStep)
    | ByUser(k: nat, us: UserStep)
    | Tear(a: C.Action)

  predicate Rests(s: State, t: Tid) {
    t in s.core.pc && s.core.pc[t].Resting?
  }

  predicate HasRole(s: State, t: Tid, r: Role) {
    t in s.role && s.role[t] == r
  }

  predicate Returned(x: Sess) {
    !x.front.Unreturned?
  }

  predicate HasHandle(front: Front) {
    front.Live? || front.Resolved? || front.Dropping?
  }

  // ---------------------------------------------------------------- futures

  predicate FutureGuard(s: State, f: Fid, e: FutureStep) {
    if e.Call? then f !in s.futs && HasRole(s, e.t, Client) && e.op != C.Connect(false)
    else
      && f in s.futs
      && var at := s.futs[f].at;
         match e
         case LockSetup => at.Queued? && s.setup.None?
         case CheckIdle(_) => at.Holding? && !at.op.Connect?
         case CheckConnectable => at.Holding? && at.op.Connect? && s.core.g.mutex.None?
         case Claim => at.Checked?
         case SpawnWorker(_) => at.Claimed?
         case SpawnDriver(_) => at.Launched? && at.k < |s.sess|
         case ReturnSession(_) => at.AwaitingStart? && at.k < |s.sess| && s.sess[at.k].starts > 0
         case FinishAwait => at.AwaitingJob? && s.setup != Some(ByJob(at.t))
         case DropFuture => at.Queued? || at.AwaitingJob? || at.AwaitingStart?
         case Call(_, _) => false
  }

  /** The thread that receives a clone of the calling client's reference, if the step makes one. */
  function Spawned(s: State, e: FutureStep): Option<Tid> {
    match e
    case CheckIdle(u) => if s.active then None else Some(u)
    case SpawnWorker(w) => Some(w)
    case SpawnDriver(d) => Some(d)
    case ReturnSession(h) => Some(h)
    case _ => None
  }

  function Advance(s: State, f: Fid, stage: Stage): State
    requires f in s.futs
  {
    s.(futs := s.futs[f := s.futs[f].(at := stage)])
  }

  /** The future is over and, if it held the setup guard, releases it. */
  function Finish(s: State, f: Fid): State {
    s.(futs := s.futs - {f}, setup := if s.setup == Some(ByFuture(f)) then None else s.setup)
  }

  function FutureEffect(s: State, f: Fid, e: FutureStep): State
    requires FutureGuard(s, f, e)
  {
    match e
    case Call(t, op) => s.(futs := s.futs[f := Fut(t, Queued(op))])
    case LockSetup => Advance(s, f, Holding(s.futs[f].at.op)).(setup := Some(ByFuture(f)))
    case CheckIdle(u) =>
      if s.active then Finish(s, f)
      else Advance(s, f, AwaitingJob(u)).(role := s.role[u := Job(s.futs[f].at.op, false)], setup := Some(ByJob(u)))
    case CheckConnectable => if s.core.g.lifecycle.Ready? then Advance(s, f, Checked) else Finish(s, f)
    case Claim => if s.active then Finish(s, f) else Advance(s, f, Claimed).(active := true)
    case SpawnWorker(w) =>
      Advance(s, f, Launched(|s.sess|)).(
        role := s.role[w := Worker(|s.sess|, false)],
        sess := s.sess + [Sess(w, w, Unspawned, 0, false, false, Unreturned)])
    case SpawnDriver(d) =>
      var k := s.futs[f].at.k;
      Advance(s, f, AwaitingStart(k)).(
        role := s.role[d := Driver(k)],
        sess := s.sess[k := s.sess[k].(driver := d, at := Selecting)])
    case ReturnSession(h) =>
      var k := s.futs[f].at.k;
      Finish(s, f).(
        role := s.role[h := Handle(k, false)],
        sess := s.sess[k := s.sess[k].(front := Live(h))])
    case FinishAwait => Finish(s, f)
    case DropFuture => Finish(s, f)
  }

  // ---------------------------------------------------------------- core threads

  /** The core step a role may take; which one actually comes next is up to the core thread. */
  predicate Permits(s: State, t: Tid, act: C.Act) {
    && t in s.role
    && (s.role[t].Worker? || s.role[t].Driver? || s.role[t].Handle? ==> s.role[t].k < |s.sess|)
    && match act
       case Lock(op) =>
         || (s.role[t].Job? && !s.role[t].begun && s.role[t].op == op)
         || (s.role[t].Worker? && !s.role[t].begun && op == C.Connect(true))
       case StopSwap =>
         || (s.role[t].Handle? && s.role[t].cancelling)
         || (s.role[t].Driver? && s.sess[s.role[t].k].at.Halting? && !s.sess[s.role[t].k].at.swapped)
       case ControlEnter => s.role[t].Driver? && s.sess[s.role[t].k].at == Commanding(false)
       case _ => true
  }

  function Steer(s: State, k: nat, at: Drive): State
    requires k < |s.sess|
  {
    s.(sess := s.sess[k := s.sess[k].(at := at)])
  }

  /** What the Tokio layer notes about a core step of thread `t`. */
  function DoEffect(s: State, t: Tid, act: C.Act, fired: bool): State
    requires Permits(s, t, act)
  {
    match s.role[t]
    case Job(op, _) => if act.Lock? then s.(role := s.role[t := Job(op, true)]) else s
    case Worker(k, _) =>
      var s1 := if act.Lock? then s.(role := s.role[t := Worker(k, true)]) else s;
      s1.(sess := s.sess[k := s.sess[k].(starts := s.sess[k].starts + if fired then 1 else 0)])
    case Driver(k) =>
      if act.StopSwap? then Steer(s, k, Halting(s.sess[k].at.why, true))
      else if act.ControlEnter? then Steer(s, k, Commanding(true))
      else s
    case Handle(k, _) => if act.StopSwap? then s.(role := s.role[t := Handle(k, false)]) else s
    case Client => s
  }

  // ---------------------------------------------------------------- driver

  predicate DriverGuard(s: State, k: nat, e: DriverStep) {
    && k < |s.sess|
    && var x := s.sess[k];
       match e
       case TakeJoin => (x.at.Selecting? || x.at.Joining?) && x.joined
       case TakeCancel => x.at.Selecting? && x.token
       case TakeStop => x.at.Selecting? && Returned(x)
       case TakeControl => x.at.Selecting? && Returned(x)
       case Halted => x.at.Halting? && x.at.swapped && Rests(s, x.driver)
       case CommandDone => x.at == Commanding(true) && Rests(s, x.driver)
       case Clear => x.at.Clearing?
       case Send => x.at.Sending?
  }

  function NextDrive(at: Drive, e: DriverStep): Drive
    requires e.Halted? ==> at.Halting?
  {
    match e
    case TakeJoin => Halting(Guard, false)
    case TakeCancel => Halting(Cancelled, false)
    case TakeStop => Halting(Command, false)
    case TakeControl => Commanding(false)
    case Halted => (match at.why case Cancelled => Joining case Command => Selecting case Guard => Clearing)
    case CommandDone => Selecting
    case Clear => Sending
    case Send => Exited
  }

  function DriverEffect(s: State, k: nat, e: DriverStep): State
    requires DriverGuard(s, k, e)
  {
    Steer(s, k, NextDrive(s.sess[k].at, e)).(
      active := s.active && !e.Clear?,
      role := if e.Send? then s.role - {s.sess[k].driver} else s.role)
  }

  // ---------------------------------------------------------------- users of a session

  predicate UserGuard(s: State, k: nat, e: UserStep) {
    && k < |s.sess|
    && var x := s.sess[k];
       match e
       case TokenCancel => Returned(x)
       case CloneHandle(h, _) => h in s.role && s.role[h].Handle? && s.role[h].k == k
       case Cancel(h) => HasRole(s, h, Handle(k, false)) && Rests(s, h)
       case DropHandle(h) => HasRole(s, h, Handle(k, false)) && !(HasHandle(x.front) && x.front.h == h)
       case Resolve => x.front.Live? && x.at.Exited?
       case DropSession => x.front.Live? && HasRole(s, x.front.h, Handle(k, false)) && Rests(s, x.front.h)
       case ReleaseSession => (x.front.Resolved? || x.front.Dropping?) && HasRole(s, x.front.h, Handle(k, false))
  }

  function UserCore(s: State, k: nat, e: UserStep): Option<C.Action>
    requires UserGuard(s, k, e)
  {
    match e
    case CloneHandle(h, u) => Some(C.Clone(h, u))
    case DropHandle(h) => Some(C.DropClone(h))
    case ReleaseSession => Some(C.DropClone(s.sess[k].front.h))
    case _ => None
  }

  function UserEffect(s: State, k: nat, e: UserStep): State
    requires UserGuard(s, k, e)
  {
    var x := s.sess[k];
    match e
    case TokenCancel => s.(sess := s.sess[k := x.(token := true)])
    case CloneHandle(_, u) => s.(role := s.role[u := Handle(k, false)])
    case Cancel(h) => s.(role := s.role[h := Handle(k, true)], sess := s.sess[k := x.(token := true)])
    case DropHandle(h) => s.(role := s.role - {h})
    case Resolve => s.(sess := s.sess[k := x.(front := Resolved(x.front.h))])
    case DropSession =>
      s.(role := s.role[x.front.h := Handle(k, true)],
         sess := s.sess[k := x.(token := true, front := Dropping(x.front.h))])
    case ReleaseSession =>
      s.(role := s.role - {x.front.h}, sess := s.sess[k := x.(front := Gone(x.front.Dropping?))])
  }

  // ---------------------------------------------------------------- all steps

  predicate Guarded(s: State, e: Step) {
    match e
    case CloneClient(t, _) => HasRole(s, t, Client)
    case DropClient(t) => HasRole(s, t, Client) && forall f :: f in s.futs ==> s.futs[f].client != t
    case ByFut(f, fs) => FutureGuard(s, f, fs)
    case JobReturns(t) => t in s.role && s.role[t].Job? && s.role[t].begun && Rests(s, t)
    case Do(t, act) => Permits(s, t, act)
    case WorkerReturns(k) => k < |s.sess| && HasRole(s, s.sess[k].worker, Worker(k, true)) && Rests(s, s.sess[k].worker)
    case ByDriver(k, ds) => DriverGuard(s, k, ds)
    case ByUser(k, us) => UserGuard(s, k, us)
    case Tear(a) => a.DropSwap? || a.DropStopExit? || a.Free?
  }

  /** The action of the blocking client that a step performs, if any. */
  function CoreAction(s: State, e: Step): Option<C.Action>
    requires Guarded(s, e)
  {
    match e
    case CloneClient(t, u) => Some(C.Clone(t, u))
    case DropClient(t) => Some(C.DropClone(t))
    case ByFut(f, fs) => if Spawned(s, fs).Some? then Some(C.Clone(s.futs[f].client, Spawned(s, fs).value)) else None
    case JobReturns(t) => Some(C.DropClone(t))
    case Do(t, act) => Some(C.Do(t, act))
    case WorkerReturns(k) => Some(C.DropClone(s.sess[k].worker))
    case ByDriver(k, ds) => if ds.Send? then Some(C.DropClone(s.sess[k].driver)) else None
    case ByUser(k, us) => UserCore(s, k, us)
    case Tear(a) => Some(a)
  }

  predicate Enabled(s: State, e: Step) {
    Guarded(s, e) && (CoreAction(s, e).Some? ==> C.Enabled(s.core, CoreAction(s, e).value))
  }

  function Effect(s: State, e: Step): State
    requires Enabled(s, e)
  {
    match e
    case CloneClient(_, u) => s.(role := s.role[u := Client])
    case DropClient(t) => s.(role := s.role - {t})
    case ByFut(f, fs) => FutureEffect(s, f, fs)
    case JobReturns(t) => s.(role := s.role - {t}, setup := None)
    case Do(t, act) => DoEffect(s, t, act, C.Did(s.core.g, t, s.core.pc[t], act).0.fired > s.core.g.fired)
    case WorkerReturns(k) =>
      s.(role := s.role - {s.sess[k].worker}, sess := s.sess[k := s.sess[k].(joined := true)])
    case ByDriver(k, ds) => DriverEffect(s, k, ds)
    case ByUser(k, us) => UserEffect(s, k, us)
    case Tear(_) => s
  }

  /** One step: the core action and the bookkeeping happen together. */
  function Apply(s: State, e: Step): State
    requires Enabled(s, e)
  {
    var a := CoreAction(s, e);
    Effect(s, e).(core := if a.Some? then C.Apply(s.core, a.value) else s.core)
  }

  ghost predicate Possible(s: State, run: seq<Step>)
    decreases |run|
  {
    run == [] || (Enabled(s, run[0]) && Possible(Apply(s, run[0]), run[1..]))
  }

  ghost function Exec(s: State, run: seq<Step>): State
    requires Possible(s, run)
    decreases |run|
  {
    if run == [] then s else Exec(Apply(s, run[0]), run[1..])
  }
}
