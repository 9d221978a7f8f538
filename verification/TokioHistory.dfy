/**
 Sessions in terms of the steps of a run: which steps set the token, return, resolve and release a
 Session, join its worker and end its driver; and what a cancellation brings about.
 */
module TokioHistory {
  import opened Options
  import C = ClientCore
  import opened TokioSession
  import opened TokioInvariant
  import opened TokioSafety

  function Front(run: seq<Step>): seq<Step>
    requires run != []
  {
    run[..|run| - 1]
  }

  function Last(run: seq<Step>): Step
    requires run != []
  {
    run[|run| - 1]
  }

  predicate Has(run: seq<Step>, p: Step -> bool) {
    exists i :: 0 <= i < |run| && p(run[i])
  }

  lemma HasSnoc(run: seq<Step>, p: Step -> bool)
    requires run != []
    ensures Has(run, p) <==> Has(Front(run), p) || p(Last(run))
  {
    if Has(Front(run), p) {
      var i :| 0 <= i < |run| - 1 && p(Front(run)[i]);
      assert p(run[i]);
    }
    if Has(run, p) {
      var i :| 0 <= i < |run| && p(run[i]);
      assert i < |run| - 1 ==> p(Front(run)[i]);
    }
  }

  lemma {:induction false} RunSplit(s: State, run: seq<Step>)
    requires Possible(s, run) && run != []
    ensures Possible(s, Front(run)) && Enabled(Exec(s, Front(run)), Last(run))
    ensures Exec(s, run) == Apply(Exec(s, Front(run)), Last(run))
    decreases |run|
  {
    if |run| == 1 {
      assert run[1..] == [] && Front(run) == [];
    } else {
      RunSplit(Apply(s, run[0]), run[1..]);
      assert Front(run[1..]) == Front(run)[1..];
    }
  }

  // ---------------------------------------------------------------- kinds of steps

  predicate User(e: Step, k: nat, us: UserStep) {
    e == ByUser(k, us)
  }

  /** `cancel()` on any handle, a cancelled token, or the drop of the Session. */
  predicate Cancels(e: Step, k: nat) {
    e.ByUser? && e.k == k && (e.us.TokenCancel? || e.us.Cancel? || e.us.DropSession?)
  }

  /** The step in which a `connect` future returns the Session of `k`. */
  predicate Returns(s: State, e: Step, k: nat) {
    e.ByFut? && e.fs.ReturnSession? && e.f in s.futs && s.futs[e.f].at == AwaitingStart(k)
  }

  predicate Drives(e: Step, k: nat, ds: DriverStep) {
    e == ByDriver(k, ds)
  }

  predicate LeavesLoop(e: Step, k: nat) {
    Drives(e, k, TakeJoin) || Drives(e, k, TakeCancel)
  }

  /** The driver is past its loop. */
  predicate LoopLeft(at: Drive) {
    (at.Halting? && !at.why.Command?) || at.Joining? || at.Clearing? || PastClear(at)
  }

  // ---------------------------------------------------------------- one step

  /** What the layer keeps of a session, as far as steps decide it. */
  datatype Told = Told(
    returned: bool, token: bool, resolved: bool, dropped: bool, released: bool,
    joined: bool, left: bool, cleared: bool, exited: bool)

  const UNTOLD: Told := Told(false, false, false, false, false, false, false, false, false)

  function Tell(told: Told, s: State, e: Step, k: nat): Told {
    Told(
      told.returned || Returns(s, e, k),
      told.token || Cancels(e, k),
      told.resolved || User(e, k, Resolve),
      told.dropped || User(e, k, DropSession),
      told.released || User(e, k, ReleaseSession),
      told.joined || e == WorkerReturns(k),
      told.left || LeavesLoop(e, k),
      told.cleared || Drives(e, k, Clear),
      told.exited || Drives(e, k, Send))
  }

  function FrontOf(told: Told, front: Front): bool {
    && (front.Unreturned? <==> !told.returned)
    && (front.Live? <==> told.returned && !told.resolved && !told.dropped)
    && (front.Resolved? <==> told.resolved && !told.released)
    && (front.Dropping? <==> told.dropped && !told.released)
    && (front.Gone? <==> told.released) && (front.Gone? ==> (front.cancelled <==> told.dropped))
    && !(told.resolved && told.dropped)
  }

  predicate Follows(told: Told, x: Sess) {
    && FrontOf(told, x.front) && (x.token <==> told.token) && (x.joined <==> told.joined)
    && (LoopLeft(x.at) <==> told.left) && (PastClear(x.at) <==> told.cleared) && (x.at.Exited? <==> told.exited)
  }

  /** A session that does not exist yet has no story. */
  predicate Known(told: Told, sess: seq<Sess>, k: nat) {
    if k < |sess| then Follows(told, sess[k]) else told == UNTOLD
  }

  lemma FutureTells(told: Told, s: State, f: Fid, e: FutureStep, k: nat)
    requires FutureGuard(s, f, e) && Known(told, s.sess, k) && (f in s.futs ==> FutInv(s, f))
    requires k < |s.sess| && s.sess[k].at.Unspawned? ==> !Returned(s.sess[k])
    ensures Known(Tell(told, s, ByFut(f, e), k), FutureEffect(s, f, e).sess, k)
  {
  }

  lemma UserOwn(told: Told, s: State, k: nat, e: UserStep)
    requires UserGuard(s, k, e) && Follows(told, s.sess[k])
    ensures |UserEffect(s, k, e).sess| == |s.sess|
    ensures Follows(Tell(told, s, ByUser(k, e), k), UserEffect(s, k, e).sess[k])
  {
  }

  lemma UserOther(told: Told, s: State, j: nat, e: UserStep, k: nat)
    requires UserGuard(s, j, e) && j != k
    ensures Tell(told, s, ByUser(j, e), k) == told && |UserEffect(s, j, e).sess| == |s.sess|
    ensures k < |s.sess| ==> UserEffect(s, j, e).sess[k] == s.sess[k]
  {
  }

  lemma UserTells(told: Told, s: State, j: nat, e: UserStep, k: nat)
    requires UserGuard(s, j, e) && Known(told, s.sess, k)
    ensures Known(Tell(told, s, ByUser(j, e), k), UserEffect(s, j, e).sess, k)
  {
    if j == k { UserOwn(told, s, k, e); } else { UserOther(told, s, j, e, k); }
  }

  lemma DriverOwn(told: Told, s: State, k: nat, e: DriverStep)
    requires DriverGuard(s, k, e) && Follows(told, s.sess[k])
    ensures |DriverEffect(s, k, e).sess| == |s.sess|
    ensures Follows(Tell(told, s, ByDriver(k, e), k), DriverEffect(s, k, e).sess[k])
  {
  }

  lemma DriverOther(told: Told, s: State, j: nat, e: DriverStep, k: nat)
    requires DriverGuard(s, j, e) && j != k
    ensures Tell(told, s, ByDriver(j, e), k) == told && |DriverEffect(s, j, e).sess| == |s.sess|
    ensures k < |s.sess| ==> DriverEffect(s, j, e).sess[k] == s.sess[k]
  {
  }

  lemma DriverTells(told: Told, s: State, j: nat, e: DriverStep, k: nat)
    requires DriverGuard(s, j, e) && Known(told, s.sess, k)
    ensures Known(Tell(told, s, ByDriver(j, e), k), DriverEffect(s, j, e).sess, k)
  {
    if j == k { DriverOwn(told, s, k, e); } else { DriverOther(told, s, j, e, k); }
  }

  lemma DoTells(told: Told, s: State, t: Tid, act: C.Act, fired: bool, k: nat)
    requires Permits(s, t, act) && Known(told, s.sess, k)
    ensures Known(told, DoEffect(s, t, act, fired).sess, k)
  {
  }

  lemma CoreTells(told: Told, s: State, t: Tid, act: C.Act, k: nat)
    requires Enabled(s, Do(t, act)) && Known(told, s.sess, k)
    ensures Known(Tell(told, s, Do(t, act), k), Effect(s, Do(t, act)).sess, k)
  {
    var fired := EffectDo(s, t, act);
    DoSilent(told, s, t, act, k);
    DoTells(told, s, t, act, fired, k);
  }

  lemma EffectDo(s: State, t: Tid, act: C.Act) returns (fired: bool)
    requires Enabled(s, Do(t, act))
    ensures Permits(s, t, act) && Effect(s, Do(t, act)) == DoEffect(s, t, act, fired)
  {
    fired := C.Did(s.core.g, t, s.core.pc[t], act).0.fired > s.core.g.fired;
  }

  lemma DoSilent(told: Told, s: State, t: Tid, act: C.Act, k: nat)
    ensures Tell(told, s, Do(t, act), k) == told
  {
  }

  lemma WorkerTells(told: Told, s: State, j: nat, k: nat)
    requires Guarded(s, WorkerReturns(j)) && Known(told, s.sess, k)
    ensures Known(Tell(told, s, WorkerReturns(j), k), s.sess[j := s.sess[j].(joined := true)], k)
  {
  }

  lemma OtherTells(told: Told, s: State, e: Step, k: nat)
    requires Enabled(s, e) && Known(told, s.sess, k)
    requires e.CloneClient? || e.DropClient? || e.JobReturns? || e.Tear?
    ensures Tell(told, s, e, k) == told && Effect(s, e).sess == s.sess
  {
  }

  lemma StepTells(told: Told, s: State, e: Step, k: nat)
    requires Enabled(s, e) && Known(told, s.sess, k)
    requires e.ByFut? && e.f in s.futs ==> FutInv(s, e.f)
    requires k < |s.sess| && s.sess[k].at.Unspawned? ==> !Returned(s.sess[k])
    ensures Known(Tell(told, s, e, k), Effect(s, e).sess, k)
  {
    match e
    case ByFut(f, fs) => FutureTells(told, s, f, fs, k);
    case ByUser(j, us) => UserTells(told, s, j, us, k);
    case ByDriver(j, ds) => DriverTells(told, s, j, ds, k);
    case Do(t, act) => CoreTells(told, s, t, act, k);
    case WorkerReturns(j) => WorkerTells(told, s, j, k);
    case _ => OtherTells(told, s, e, k);
  }

  lemma InvTells(told: Told, s: State, e: Step, k: nat)
    requires Inv(s) && Enabled(s, e) && Known(told, s.sess, k)
    ensures Known(Tell(told, s, e, k), Effect(s, e).sess, k)
  {
    assert e.ByFut? && e.f in s.futs ==> FutInv(s, e.f);
    assert k < |s.sess| ==> SessInv(s, k);
    StepTells(told, s, e, k);
  }

  // ---------------------------------------------------------------- whole runs

  /** Some step of the run returned the Session of `k`. */
  ghost predicate ReturnedIn(run: seq<Step>, k: nat) {
    exists i :: 0 <= i < |run| && Possible(INITIAL, run[..i]) && Returns(Exec(INITIAL, run[..i]), run[i], k)
  }

  lemma ReturnedSnoc(run: seq<Step>, k: nat)
    requires run != [] && Possible(INITIAL, Front(run))
    ensures ReturnedIn(run, k) <==> ReturnedIn(Front(run), k) || Returns(Exec(INITIAL, Front(run)), Last(run), k)
  {
    var front := Front(run);
    if ReturnedIn(front, k) {
      var i :| 0 <= i < |front| && Possible(INITIAL, front[..i]) && Returns(Exec(INITIAL, front[..i]), front[i], k);
      assert front[..i] == run[..i] && front[i] == run[i];
    }
    if ReturnedIn(run, k) {
      var i :| 0 <= i < |run| && Possible(INITIAL, run[..i]) && Returns(Exec(INITIAL, run[..i]), run[i], k);
      if i < |front| { assert front[..i] == run[..i] && front[i] == run[i]; }
    }
    assert run[..|run| - 1] == front;
  }

  ghost function Story(run: seq<Step>, k: nat): Told {
    Told(
      ReturnedIn(run, k),
      Has(run, (e: Step) => Cancels(e, k)),
      Has(run, (e: Step) => User(e, k, Resolve)),
      Has(run, (e: Step) => User(e, k, DropSession)),
      Has(run, (e: Step) => User(e, k, ReleaseSession)),
      Has(run, (e: Step) => e == WorkerReturns(k)),
      Has(run, (e: Step) => LeavesLoop(e, k)),
      Has(run, (e: Step) => Drives(e, k, Clear)),
      Has(run, (e: Step) => Drives(e, k, Send)))
  }

  lemma StorySnoc(run: seq<Step>, k: nat)
    requires run != [] && Possible(INITIAL, Front(run))
    ensures Story(run, k) == Tell(Story(Front(run), k), Exec(INITIAL, Front(run)), Last(run), k)
  {
    ReturnedSnoc(run, k);
    HasSnoc(run, (e: Step) => Cancels(e, k));
    HasSnoc(run, (e: Step) => User(e, k, Resolve));
    HasSnoc(run, (e: Step) => User(e, k, DropSession));
    HasSnoc(run, (e: Step) => User(e, k, ReleaseSession));
    HasSnoc(run, (e: Step) => e == WorkerReturns(k));
    HasSnoc(run, (e: Step) => LeavesLoop(e, k));
    HasSnoc(run, (e: Step) => Drives(e, k, Clear));
    HasSnoc(run, (e: Step) => Drives(e, k, Send));
  }

  /** In every run, a session is where its steps have brought it: its token is set exactly if some
      step cancelled it, its Session is returned, resolved, dropped or released exactly by the steps
      of that name, its worker is joined exactly after returning, and its driver has left the loop,
      cleared the flag and exited exactly by its own steps. */
  lemma {:induction false} SessionFollowsSteps(run: seq<Step>, k: nat)
    requires Possible(INITIAL, run)
    ensures Inv(Exec(INITIAL, run)) && Known(Story(run, k), Exec(INITIAL, run).sess, k)
    decreases |run|
  {
    InitialHolds();
    if run != [] {
      RunSplit(INITIAL, run);
      SessionFollowsSteps(Front(run), k);
      var s := Exec(INITIAL, Front(run));
      StorySnoc(run, k);
      InvTells(Story(Front(run), k), s, Last(run), k);
      Preserves(s, Last(run));
    } else {
      assert !ReturnedIn([], k);
    }
  }

  // ---------------------------------------------------------------- which futures are let through

  /** Every session there was has cleared `session_active`. */
  ghost predicate AllCleared(run: seq<Step>)
    requires Possible(INITIAL, run)
  {
    forall k :: 0 <= k < |Exec(INITIAL, run).sess| ==> Story(run, k).cleared
  }

  lemma ClearedTold(run: seq<Step>, k: nat)
    requires Possible(INITIAL, run) && k < |Exec(INITIAL, run).sess|
    ensures PastClear(Exec(INITIAL, run).sess[k].at) <==> Story(run, k).cleared
  {
    SessionFollowsSteps(run, k);
  }

  ghost predicate AllPast(sess: seq<Sess>) {
    forall k :: 0 <= k < |sess| ==> PastClear(sess[k].at)
  }

  lemma ActiveMeans(s: State, f: Fid)
    requires CountInv(s) && ActiveInv(s) && f in s.futs && FutInv(s, f)
    requires HoldsSetup(s.futs[f].at) && !s.futs[f].at.Claimed?
    ensures s.active <==> !AllPast(s.sess)
  {
  }

  lemma ActiveIff(run: seq<Step>, f: Fid)
    requires Possible(INITIAL, run) && f in Exec(INITIAL, run).futs
    requires HoldsSetup(Exec(INITIAL, run).futs[f].at) && !Exec(INITIAL, run).futs[f].at.Claimed?
    ensures Exec(INITIAL, run).active <==> !AllCleared(run)
  {
    var s := Exec(INITIAL, run);
    ReachableInv(run);
    assert FutInv(s, f);
    ActiveMeans(s, f);
    AllTold(run);
  }

  lemma AllTold(run: seq<Step>)
    requires Possible(INITIAL, run)
    ensures AllPast(Exec(INITIAL, run).sess) <==> AllCleared(run)
  {
    var s := Exec(INITIAL, run);
    forall k | 0 <= k < |s.sess| ensures PastClear(s.sess[k].at) <==> Story(run, k).cleared {
      ClearedTold(run, k);
    }
  }

  /** A future that holds the setup guard starts its evaluation or credentials job, or claims the
      session, exactly if every session before has cleared `session_active`; otherwise it is over
      and the guard is free again. */
  lemma LetThroughIff(run: seq<Step>, f: Fid, e: FutureStep)
    requires Possible(INITIAL, run) && Enabled(Exec(INITIAL, run), ByFut(f, e)) && (e.CheckIdle? || e.Claim?)
    ensures var s' := Apply(Exec(INITIAL, run), ByFut(f, e));
            if AllCleared(run) then
              && f in s'.futs
              && (e.CheckIdle? ==> s'.futs[f].at == AwaitingJob(e.u))
              && (e.Claim? ==> s'.futs[f].at == Claimed && s'.active)
            else f !in s'.futs && s'.setup.None?
  {
    ReachableInv(run);
    var s := Exec(INITIAL, run);
    assert FutInv(s, f);
    ActiveIff(run, f);
  }

  /** A future that was dropped, whose job was awaited or that returned its Session is over, and does
      not hold the setup guard. */
  lemma FutureEnds(run: seq<Step>, f: Fid, e: FutureStep)
    requires Possible(INITIAL, run) && Enabled(Exec(INITIAL, run), ByFut(f, e))
    requires e.DropFuture? || e.FinishAwait? || e.ReturnSession?
    ensures var s' := Apply(Exec(INITIAL, run), ByFut(f, e));
            && f !in s'.futs && s'.setup != Some(ByFuture(f))
            && forall g :: g in Exec(INITIAL, run).futs && g != f ==>
                 g in s'.futs && s'.futs[g] == Exec(INITIAL, run).futs[g]
  {
  }

  // ---------------------------------------------------------------- what a cancellation brings about

  /** A stop request is never taken back once `connect` has cleared the flag. */
  lemma RequestKept(s: State, e: Step)
    requires Inv(s) && Enabled(s, e) && s.core.g.cleared && s.core.g.stopRequested
    ensures Apply(s, e).core.g.cleared && Apply(s, e).core.g.stopRequested
  {
    var a := CoreAction(s, e);
    if a.Some? { C.RequestStays(s.core, a.value); }
  }

  /** The handle is about to stop, or the stop is requested for good. */
  predicate StopsSoon(s: State, k: nat, h: Tid) {
    HasRole(s, h, Handle(k, true)) || (s.core.g.cleared && s.core.g.stopRequested)
  }

  lemma ReturnedCleared(s: State, k: nat)
    requires Inv(s) && k < |s.sess| && Returned(s.sess[k])
    ensures s.core.g.cleared
  {
    assert SessInv(s, k) && SessInv(s, 0);
  }

  /** Nobody but the handle itself ends its `cancel()`. */
  lemma CancellingStays(s: State, e: Step, k: nat, h: Tid)
    requires Enabled(s, e) && HasRole(s, h, Handle(k, true)) && h in s.core.pc && e != Do(h, C.StopSwap)
    requires e.ByDriver? && e.ds.Send? ==> s.sess[e.k].driver in s.role && s.role[s.sess[e.k].driver].Driver?
    ensures HasRole(Effect(s, e), h, Handle(k, true))
  {
  }

  lemma SwapRequests(s: State, h: Tid)
    requires Enabled(s, Do(h, C.StopSwap))
    ensures Apply(s, Do(h, C.StopSwap)).core.g.stopRequested
    ensures Apply(s, Do(h, C.StopSwap)).core.g.cleared == s.core.g.cleared
  {
  }

  lemma StopsSoonStays(s: State, e: Step, k: nat, h: Tid)
    requires Inv(s) && Enabled(s, e) && StopsSoon(s, k, h)
    ensures StopsSoon(Apply(s, e), k, h)
  {
    if s.core.g.cleared && s.core.g.stopRequested {
      RequestKept(s, e);
    } else {
      assert RoleOk(s, h, s.role[h], s.core.pc[h]);
      if e == Do(h, C.StopSwap) {
        ReturnedCleared(s, k);
        SwapRequests(s, h);
      } else {
        if e.ByDriver? && e.ds.Send? { assert SessInv(s, e.k); }
        CancellingStays(s, e, k, h);
      }
    }
  }

  lemma {:induction false} StopsSoonRun(s: State, run: seq<Step>, k: nat, h: Tid)
    requires Inv(s) && Possible(s, run) && StopsSoon(s, k, h)
    ensures StopsSoon(Exec(s, run), k, h)
    decreases |run|
  {
    if run != [] {
      StopsSoonStays(s, run[0], k, h);
      Preserves(s, run[0]);
      StopsSoonRun(Apply(s, run[0]), run[1..], k, h);
    }
  }

  /** The handle whose `cancel()` a step runs: the one named, or the dropped Session's own. */
  predicate CancelsBy(s: State, e: Step, k: nat, h: Tid) {
    e == ByUser(k, Cancel(h)) || (e == ByUser(k, DropSession) && k < |s.sess| && s.sess[k].front == Live(h))
  }

  /** After `cancel()` or the drop of an unresolved Session, in every continuation: as soon as the
      handle is no longer inside `cancel()`, the stop has been requested, for good. */
  lemma CancelRequestsStop(run: seq<Step>, e: Step, later: seq<Step>, k: nat, h: Tid)
    requires Possible(INITIAL, run) && Enabled(Exec(INITIAL, run), e) && CancelsBy(Exec(INITIAL, run), e, k, h)
    requires Possible(Apply(Exec(INITIAL, run), e), later)
    ensures var z := Exec(Apply(Exec(INITIAL, run), e), later);
            HasRole(z, h, Handle(k, true)) || (z.core.g.stopRequested && z.core.g.cleared)
  {
    ReachableInv(run);
    var s := Exec(INITIAL, run);
    Preserves(s, e);
    StopsSoonRun(Apply(s, e), later, k, h);
  }

  /** Steps of the handle, or of a thread that is inside `core.stop()`. */
  predicate Halts(s: State, h: Tid, e: Step) {
    e.Do? && (e.t == h || (e.t in s.core.pc && (s.core.pc[e.t].Armed? || s.core.pc[e.t].Stopping?)))
  }

  ghost predicate HaltClosed(within: State -> bool, h: Tid) {
    forall s, e :: within(s) && Halts(s, h, e) && Enabled(s, e) ==> within(Apply(s, e))
  }

  lemma HaltDo(within: State -> bool, h: Tid, s: State, t: Tid, act: C.Act) returns (s': State)
    requires HaltClosed(within, h) && within(s) && Halts(s, h, Do(t, act)) && Inv(s)
    requires t in s.core.pc && C.CanDo(s.core.g, s.core.pc[t], act) && Permits(s, t, act)
    requires act.StopSwap? || act.StopEnter? || act.StopEffect?
    ensures var (g, p) := C.Did(s.core.g, t, s.core.pc[t], act);
            within(s') && Inv(s') && s'.core == C.State(g, s.core.pc[t := p])
  {
    s' := Apply(s, Do(t, act));
    Preserves(s, Do(t, act));
  }

  lemma PendingHalts(within: State -> bool, h: Tid, s0: State, t: Tid) returns (s: State)
    requires HaltClosed(within, h) && within(s0) && Inv(s0) && s0.core.g.phase.Running?
    requires t in s0.core.pc && (s0.core.pc[t].Armed? || s0.core.pc[t] == C.Stopping(false))
    ensures within(s) && s.core.g.delivered
  {
    assert RoleOk(s0, t, s0.role[t], s0.core.pc[t]);
    s := s0;
    if s.core.pc[t].Armed? {
      s := HaltDo(within, h, s, t, C.StopEnter);
      assert RoleOk(s, t, s.role[t], s.core.pc[t]);
    }
    s := HaltDo(within, h, s, t, C.StopEffect);
  }

  /** From a handle inside `cancel()` with Core running, its own steps and those of threads already
      inside a stop are enough to reach a delivered stop. */
  lemma CancelDelivers(within: State -> bool, s0: State, k: nat, h: Tid) returns (s: State)
    requires HaltClosed(within, h) && within(s0) && Inv(s0) && s0.core.g.phase.Running?
    requires HasRole(s0, h, Handle(k, true))
    ensures within(s) && s.core.g.delivered
  {
    assert RoleOk(s0, h, s0.role[h], s0.core.pc[h]);
    assert SessInv(s0, k) && SessInv(s0, 0);
    C.CoreCleared(s0.core);
    s := s0;
    if s.core.g.delivered {
    } else if s.core.g.stopRequested {
      var t :| t in s.core.pc && (s.core.pc[t].Armed? || s.core.pc[t] == C.Stopping(false));
      s := PendingHalts(within, h, s, t);
    } else {
      s := HaltDo(within, h, s, h, C.StopSwap);
      s := PendingHalts(within, h, s, h);
    }
  }

  /** Right after `cancel()` begins, its handle is inside it. */
  lemma CancelBegins(run: seq<Step>, e: Step, k: nat, h: Tid)
    requires Possible(INITIAL, run) && Enabled(Exec(INITIAL, run), e) && CancelsBy(Exec(INITIAL, run), e, k, h)
    ensures HasRole(Apply(Exec(INITIAL, run), e), h, Handle(k, true)) && Inv(Apply(Exec(INITIAL, run), e))
    ensures k < |Apply(Exec(INITIAL, run), e).sess| && Apply(Exec(INITIAL, run), e).sess[k].token
  {
    ReachableInv(run);
    Preserves(Exec(INITIAL, run), e);
  }
}
