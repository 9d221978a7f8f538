/**
 The cells of the blocking client in terms of the actions of a run alone: which actions set the
 lifecycle, the flag and the counters, and which calls are let through.
 */
module ClientHistory {
  import opened Options
  import opened ClientCore

  function Front(run: seq<Action>): seq<Action>
    requires run != []
  {
    run[..|run| - 1]
  }

  function Last(run: seq<Action>): Action
    requires run != []
  {
    run[|run| - 1]
  }

  predicate Has(run: seq<Action>, p: Action -> bool) {
    exists i :: 0 <= i < |run| && p(run[i])
  }

  function Count(run: seq<Action>, p: Action -> bool): nat {
    if run == [] then 0 else Count(Front(run), p) + if p(Last(run)) then 1 else 0
  }

  lemma HasSnoc(run: seq<Action>, p: Action -> bool)
    requires run != []
    ensures Has(run, p) <==> Has(Front(run), p) || p(Last(run))
  {
    if Has(Front(run), p) {
      var i :| 0 <= i < |run| - 1 && p(Front(run)[i]);
      assert p(run[i]);
    }
    if Has(run, p) {
      var i :| 0 <= i < |run| && p(run[i]);
      assert i < |run| - 1 ==> p(Front(run)[i]);
    }
  }

  // ---------------------------------------------------------------- kinds of actions

  function By(act: Act): Action -> bool {
    (a: Action) => a.Do? && a.act == act
  }

  predicate Swaps(a: Action) {
    a.DropSwap? || (a.Do? && a.act.StopSwap?)
  }

  /** The flag: what the last swap or the clearing left. */
  predicate FlagAfter(run: seq<Action>) {
    run != [] && (Swaps(Last(run)) || (!By(ClearStop)(Last(run)) && FlagAfter(Front(run))))
  }

  /** Swaps that found the flag false. */
  function WonSwaps(run: seq<Action>): nat {
    if run == [] then 0
    else WonSwaps(Front(run)) + if Swaps(Last(run)) && !FlagAfter(Front(run)) then 1 else 0
  }

  /** Native stops entered: by a caller that won, or by the final drop if it wins. */
  function NativeStops(run: seq<Action>): nat {
    if run == [] then 0
    else
      NativeStops(Front(run))
      + if By(StopEnter)(Last(run)) || (Last(run).DropSwap? && !FlagAfter(Front(run))) then 1 else 0
  }

  /** The native phase: set up from the entry, reachable from the end of the setup, announced from
      the notification, done from the end. */
  function PhaseAfter(run: seq<Action>): Phase {
    if Has(run, By(ConnectEnds)) then Done
    else if Has(run, By(Notify)) then Running
    else if Has(run, By(SetupDone)) then Reachable
    else if Has(run, By(EnterConnect)) then SettingUp
    else Idle
  }

  predicate Unreachable(phase: Phase) {
    phase.Idle? || phase.SettingUp?
  }

  /** Native stops that took effect before Core was reachable. */
  function EarlyStops(run: seq<Action>): nat {
    if run == [] then 0
    else
      EarlyStops(Front(run))
      + if By(StopEffect)(Last(run)) && Unreachable(PhaseAfter(Front(run))) then 1 else 0
  }

  /** Some native stop took effect while Core was reachable. */
  predicate HeardIn(run: seq<Action>) {
    run != [] && (HeardIn(Front(run)) || (By(StopEffect)(Last(run)) && Listening(PhaseAfter(Front(run)))))
  }

  // ---------------------------------------------------------------- one action

  /** What an action of a thread does to the lifecycle. */
  lemma LifecycleDid(g: Shared, t: Tid, p: Pc, act: Act)
    requires CanDo(g, p, act) && ThreadInv(g, t, p) && LifecycleInv(g)
    ensures var g' := Did(g, t, p, act).0;
            && (g'.lifecycle.New? <==> g.lifecycle.New? && act != EvaluateReturns(true))
            && (g'.lifecycle.Finished? <==> g.lifecycle.Finished? || act.Reset?)
            && (g'.cleared <==> g.cleared || act.ClearStop?)
  {
    if act.Decide? {
    } else if act.Lock? {
    }
  }

  lemma PhaseDid(g: Shared, t: Tid, p: Pc, act: Act)
    requires CanDo(g, p, act) && ThreadInv(g, t, p)
    ensures var g' := Did(g, t, p, act).0;
            && g'.connects == g.connects + (if act.EnterConnect? then 1 else 0)
            && g'.phase == match act
                           case EnterConnect => SettingUp
                           case SetupDone => Reachable
                           case Notify => Running
                           case ConnectEnds => Done
                           case _ => g.phase
  {
    if act.Decide? {
    } else if act.Lock? {
    }
  }

  lemma FlagDid(g: Shared, t: Tid, p: Pc, act: Act)
    requires CanDo(g, p, act)
    ensures var g' := Did(g, t, p, act).0;
            && (g'.stopRequested <==> act.StopSwap? || (!act.ClearStop? && g.stopRequested))
            && g'.swaps == g.swaps + (if act.StopSwap? && !g.stopRequested then 1 else 0)
            && g'.stopCalls == g.stopCalls + (if act.StopEnter? then 1 else 0)
            && g'.frees == g.frees
  {
    if act.Decide? {
    } else if act.Lock? {
    }
  }

  lemma EffectDid(g: Shared, t: Tid, p: Pc, act: Act)
    requires CanDo(g, p, act)
    ensures var g' := Did(g, t, p, act).0;
            && (g'.delivered <==> g.delivered || (act.StopEffect? && Listening(g.phase)))
            && g'.early == g.early + (if act.StopEffect? && (g.phase.Idle? || g.phase.SettingUp?) then 1 else 0)
  {
    if act.Decide? {
    } else if act.Lock? {
    }
  }

  // ---------------------------------------------------------------- whole runs

  lemma {:induction false} RunSplit(s: State, run: seq<Action>)
    requires Possible(s, run) && run != []
    ensures Possible(s, Front(run)) && Enabled(Exec(s, Front(run)), Last(run))
    ensures Exec(s, run) == Apply(Exec(s, Front(run)), Last(run))
    decreases |run|
  {
    if |run| == 1 {
      assert run[1..] == [] && Front(run) == [];
    } else {
      RunSplit(Apply(s, run[0]), run[1..]);
      assert Front(run[1..]) == Front(run)[1..];
    }
  }

  ghost predicate LifecycleTold(run: seq<Action>, g: Shared) {
    && (g.lifecycle.New? <==> !Has(run, By(EvaluateReturns(true))))
    && (g.lifecycle.Finished? <==> Has(run, By(Reset)))
    && (g.cleared <==> Has(run, By(ClearStop)))
  }

  ghost predicate PhaseTold(run: seq<Action>, g: Shared) {
    g.phase == PhaseAfter(run) && g.connects == Count(run, By(EnterConnect))
  }

  ghost predicate FlagTold(run: seq<Action>, g: Shared) {
    && (g.stopRequested <==> FlagAfter(run)) && g.swaps == WonSwaps(run) && g.stopCalls == NativeStops(run)
    && g.frees == Count(run, (a: Action) => a.Free?)
  }

  ghost predicate EffectTold(run: seq<Action>, g: Shared) {
    (g.delivered <==> HeardIn(run)) && g.early == EarlyStops(run)
  }

  lemma LifecycleStep(run: seq<Action>, s: State)
    requires run != [] && Inv(s) && Enabled(s, Last(run)) && LifecycleTold(Front(run), s.g)
    ensures LifecycleTold(run, Apply(s, Last(run)).g)
  {
    HasSnoc(run, By(EvaluateReturns(true)));
    HasSnoc(run, By(Reset));
    HasSnoc(run, By(ClearStop));
    var a := Last(run);
    if a.Do? {
      assert ThreadInv(s.g, a.t, s.pc[a.t]);
      LifecycleDid(s.g, a.t, s.pc[a.t], a.act);
    }
  }

  /** The phases come in order, each at most once. */
  lemma PhaseSnoc(run: seq<Action>, g: Shared, t: Tid, p: Pc, act: Act)
    requires run != [] && Last(run) == Do(t, act) && CanDo(g, p, act) && ThreadInv(g, t, p)
    requires g.phase == PhaseAfter(Front(run))
    ensures PhaseAfter(run) == match act
                               case EnterConnect => SettingUp
                               case SetupDone => Reachable
                               case Notify => Running
                               case ConnectEnds => Done
                               case _ => g.phase
  {
    PhaseKinds(run);
  }

  lemma PhaseKinds(run: seq<Action>)
    requires run != []
    ensures Has(run, By(ConnectEnds)) <==> Has(Front(run), By(ConnectEnds)) || By(ConnectEnds)(Last(run))
    ensures Has(run, By(Notify)) <==> Has(Front(run), By(Notify)) || By(Notify)(Last(run))
    ensures Has(run, By(SetupDone)) <==> Has(Front(run), By(SetupDone)) || By(SetupDone)(Last(run))
    ensures Has(run, By(EnterConnect)) <==> Has(Front(run), By(EnterConnect)) || By(EnterConnect)(Last(run))
  {
    HasSnoc(run, By(ConnectEnds));
    HasSnoc(run, By(Notify));
    HasSnoc(run, By(SetupDone));
    HasSnoc(run, By(EnterConnect));
  }

  lemma PhaseStep(run: seq<Action>, s: State)
    requires run != [] && Inv(s) && Enabled(s, Last(run)) && PhaseTold(Front(run), s.g)
    ensures PhaseTold(run, Apply(s, Last(run)).g)
  {
    var a := Last(run);
    if a.Do? {
      assert ThreadInv(s.g, a.t, s.pc[a.t]);
      PhaseDid(s.g, a.t, s.pc[a.t], a.act);
      PhaseSnoc(run, s.g, a.t, s.pc[a.t], a.act);
    } else {
      PhaseKinds(run);
    }
  }

  lemma FlagStep(run: seq<Action>, s: State)
    requires run != [] && Enabled(s, Last(run)) && FlagTold(Front(run), s.g)
    ensures FlagTold(run, Apply(s, Last(run)).g)
  {
    var a := Last(run);
    if a.Do? { FlagDid(s.g, a.t, s.pc[a.t], a.act); }
  }

  lemma EffectStep(run: seq<Action>, s: State)
    requires run != [] && Enabled(s, Last(run)) && EffectTold(Front(run), s.g) && s.g.phase == PhaseAfter(Front(run))
    ensures EffectTold(run, Apply(s, Last(run)).g)
  {
    var a := Last(run);
    if a.Do? { EffectDid(s.g, a.t, s.pc[a.t], a.act); }
  }

  /** In every run the cells are what the actions say: the lifecycle is New until an evaluation
      succeeds and Finished once the reset ran, the phase follows the native call, the flag is what
      the last swap or clearing left, and the counters count. */
  lemma {:induction false} CellsFollowActions(run: seq<Action>)
    requires Possible(INITIAL, run)
    ensures Inv(Exec(INITIAL, run)) && LifecycleTold(run, Exec(INITIAL, run).g) && PhaseTold(run, Exec(INITIAL, run).g)
    ensures FlagTold(run, Exec(INITIAL, run).g) && EffectTold(run, Exec(INITIAL, run).g)
    decreases |run|
  {
    InitialHolds();
    if run != [] {
      RunSplit(INITIAL, run);
      CellsFollowActions(Front(run));
      var s := Exec(INITIAL, Front(run));
      LifecycleStep(run, s);
      PhaseStep(run, s);
      FlagStep(run, s);
      EffectStep(run, s);
      Preserves(s, Last(run));
    }
  }

  // ---------------------------------------------------------------- which calls are let through

  /** Until the flag is cleared, the thread that wrote Connecting is still inside `prepare_connect`. */
  ghost predicate Preparing(s: State) {
    s.g.lifecycle.Connecting? && !s.g.cleared ==>
      s.g.connector.Some? && s.g.connector.value in s.pc && s.pc[s.g.connector.value].Marked?
  }

  lemma PreparingDid(g: Shared, t: Tid, p: Pc, act: Act)
    requires CanDo(g, p, act) && ThreadInv(g, t, p) && LifecycleInv(g)
    ensures var (g', p') := Did(g, t, p, act);
            && (g'.connector == g.connector || (g'.connector == Some(t) && p'.Marked?))
            && (g'.lifecycle.Connecting? && !g'.cleared ==>
                  p'.Marked? || (g.lifecycle.Connecting? && !g.cleared && !p.Marked?))
  {
    if act.Decide? {
    } else if act.Lock? {
    }
  }

  lemma PreparingStep(s: State, a: Action)
    requires Inv(s) && Enabled(s, a) && Preparing(s)
    ensures Preparing(Apply(s, a))
  {
    match a
    case Do(t, act) =>
      assert ThreadInv(s.g, t, s.pc[t]);
      PreparingDid(s.g, t, s.pc[t], act);
      var (g', p') := Did(s.g, t, s.pc[t], act);
      if p'.Marked? {
        OwnThread(s.g, t, s.pc[t], act);
      }
    case _ =>
  }

  lemma {:induction false} RunPreparing(s: State, run: seq<Action>)
    requires Inv(s) && Possible(s, run) && Preparing(s)
    ensures Preparing(Exec(s, run))
    decreases |run|
  {
    if run != [] {
      PreparingStep(s, run[0]);
      Preserves(s, run[0]);
      RunPreparing(Apply(s, run[0]), run[1..]);
    }
  }

  /** In every run, a thread that holds the mutex and looks at the lifecycle is let through exactly
      as follows: evaluation unless a connect was prepared before; credentials and connect if an
      evaluation succeeded and no connect was prepared before. Otherwise it returns at once. */
  lemma LetThroughIff(run: seq<Action>, t: Tid)
    requires Possible(INITIAL, run) && t in Exec(INITIAL, run).pc && Exec(INITIAL, run).pc[t].Locked?
    ensures var s := Exec(INITIAL, run);
            var evaluated, prepared := Has(run, By(EvaluateReturns(true))), Has(run, By(ClearStop));
            && Enabled(s, Do(t, Decide))
            && Apply(s, Do(t, Decide)).pc[t]
               == match s.pc[t].op
                  case Evaluate => if !prepared then Evaluating else Resting
                  case Credentials => if evaluated && !prepared then Crediting else Resting
                  case Connect(announces) => if evaluated && !prepared then Marked(announces) else Resting
  {
    InitialHolds();
    CellsFollowActions(run);
    RunPreparing(INITIAL, run);
    HolderSeesAll(Exec(INITIAL, run), t);
  }

  lemma HolderSeesAll(s: State, t: Tid)
    requires Inv(s) && Preparing(s) && t in s.pc && s.pc[t].Locked?
    ensures s.g.lifecycle.Connecting? || s.g.lifecycle.Finished? <==> s.g.cleared
  {
    assert ThreadInv(s.g, t, s.pc[t]);
    if s.g.connector.Some? && s.g.connector.value in s.pc {
      assert ThreadInv(s.g, s.g.connector.value, s.pc[s.g.connector.value]);
    }
  }

  lemma {:induction false} Prefix(run: seq<Action>, j: nat)
    requires Possible(INITIAL, run) && j < |run|
    ensures Possible(INITIAL, run[..j]) && Enabled(Exec(INITIAL, run[..j]), run[j])
    decreases |run|
  {
    RunSplit(INITIAL, run);
    if j < |run| - 1 {
      Prefix(Front(run), j);
      assert Front(run)[..j] == run[..j];
    }
  }

  /** Native connect is entered only after an evaluation succeeded and the flag was cleared. */
  lemma ConnectNeedsEvaluation(run: seq<Action>, j: nat)
    requires Possible(INITIAL, run) && j < |run| && By(EnterConnect)(run[j])
    ensures Has(run[..j], By(EvaluateReturns(true))) && Has(run[..j], By(ClearStop))
  {
    Prefix(run, j);
    EnterMeans(run[..j], run[j].t);
  }

  lemma EnterMeans(run: seq<Action>, t: Tid)
    requires Possible(INITIAL, run) && t in Exec(INITIAL, run).pc && Exec(INITIAL, run).pc[t].Prepared?
    ensures Has(run, By(EvaluateReturns(true))) && Has(run, By(ClearStop))
  {
    LifecycleFollows(run);
    PreparedMeans(run, Exec(INITIAL, run), t);
  }

  lemma LifecycleFollows(run: seq<Action>)
    requires Possible(INITIAL, run)
    ensures Inv(Exec(INITIAL, run)) && LifecycleTold(run, Exec(INITIAL, run).g)
  {
    CellsFollowActions(run);
  }

  lemma PreparedMeans(run: seq<Action>, s: State, t: Tid)
    requires Inv(s) && t in s.pc && s.pc[t].Prepared? && LifecycleTold(run, s.g)
    ensures Has(run, By(EvaluateReturns(true))) && Has(run, By(ClearStop))
  {
    assert ThreadInv(s.g, t, s.pc[t]);
  }

  // ---------------------------------------------------------------- where threads stand

  /** What a thread did last since it got its reference. */
  function LastAct(run: seq<Action>, t: Tid): Option<Act> {
    if run == [] then None
    else
      match Last(run)
      case Do(u, act) => if u == t then Some(act) else LastAct(Front(run), t)
      case Clone(_, u) => if u == t then None else LastAct(Front(run), t)
      case _ => LastAct(Front(run), t)
  }

  /** Where that leaves it. */
  predicate Stands(act: Option<Act>, p: Pc) {
    match act
    case None => p.Resting?
    case Some(Lock(op)) => p == Locked(op)
    case Some(Decide) => p.Evaluating? || p.Crediting? || p.Marked? || p.Resting?
    case Some(ClearStop) => p.Prepared?
    case Some(EnterConnect) => p.InConnect?
    case Some(SetupDone) => p.InConnect?
    case Some(Notify) => p.InConnect?
    case Some(ConnectEnds) => p.InConnect?
    case Some(FinalNotify) => p.Leaving?
    case Some(StopSwap) => p.Armed? || p.Resting?
    case Some(StopEnter) => p == Stopping(false)
    case Some(StopEffect) => p == Stopping(true)
    case Some(ControlEnter) => p.Controlling?
    case Some(_) => p.Resting?
  }

  lemma StandsDid(g: Shared, t: Tid, p: Pc, act: Act)
    requires CanDo(g, p, act)
    ensures Stands(Some(act), Did(g, t, p, act).1)
  {
    if act.Decide? {
    } else if act.Lock? {
    }
  }

  /** In every run a thread stands where its last own action leaves it; native calls that have
      returned leave it at rest. */
  lemma {:induction false} ThreadsFollowActions(run: seq<Action>, t: Tid)
    requires Possible(INITIAL, run)
    ensures t in Exec(INITIAL, run).pc ==> Stands(LastAct(run, t), Exec(INITIAL, run).pc[t])
    decreases |run|
  {
    if run != [] {
      RunSplit(INITIAL, run);
      ThreadsFollowActions(Front(run), t);
      var s, a := Exec(INITIAL, Front(run)), Last(run);
      if a.Do? && a.t == t { StandsDid(s.g, t, s.pc[t], a.act); }
    }
  }

  // ---------------------------------------------------------------- every call can return

  /** How many own steps a thread is from rest, at most. */
  function Distance(g: Shared, p: Pc): nat {
    match p
    case Resting => 0
    case Locked(_) => 9
    case Marked(_) => 8
    case Prepared(_) => 7
    case InConnect => if g.phase.Done? then 5 else 6
    case Armed => 3
    case Stopping(applied) => if applied then 1 else 2
    case _ => 1
  }

  /** A step that takes the thread closer to rest. */
  function WayOut(g: Shared, p: Pc): Act
    requires !p.Resting?
  {
    match p
    case Locked(_) => Decide
    case Evaluating => EvaluateReturns(false)
    case Crediting => CredentialsReturn
    case Marked(_) => ClearStop
    case Prepared(_) => EnterConnect
    case InConnect => if g.phase.Done? then FinalNotify else ConnectEnds
    case Leaving => Reset
    case Armed => StopEnter
    case Stopping(applied) => if applied then StopExit else StopEffect
    case Controlling => ControlExit
  }

  lemma StepOut(g: Shared, t: Tid, p: Pc)
    requires !p.Resting? && ThreadInv(g, t, p) && (g.mutex.None? || g.mutex == Some(t))
    ensures CanDo(g, p, WayOut(g, p))
    ensures var (g', p') := Did(g, t, p, WayOut(g, p));
            Distance(g', p') < Distance(g, p) && (g'.mutex.None? || g'.mutex == Some(t))
  {
  }

  /** No call hangs: as long as no other thread holds the mutex, a thread that is inside a call is
      back at rest after at most nine of its own steps. */
  lemma {:induction false} EveryCallCanReturn(s: State, t: Tid) returns (run: seq<Action>)
    requires Inv(s) && t in s.pc && (s.g.mutex.None? || s.g.mutex == Some(t))
    ensures Possible(s, run) && |run| <= 9 && forall i :: 0 <= i < |run| ==> run[i].Do? && run[i].t == t
    ensures t in Exec(s, run).pc && Exec(s, run).pc[t].Resting?
  {
    run := WalkOut(s, t);
  }

  lemma {:induction false} WalkOut(s: State, t: Tid) returns (run: seq<Action>)
    requires Inv(s) && t in s.pc && (s.g.mutex.None? || s.g.mutex == Some(t))
    ensures Possible(s, run) && |run| <= Distance(s.g, s.pc[t])
    ensures forall i :: 0 <= i < |run| ==> run[i].Do? && run[i].t == t
    ensures t in Exec(s, run).pc && Exec(s, run).pc[t].Resting?
    decreases Distance(s.g, s.pc[t])
  {
    if s.pc[t].Resting? {
      run := [];
    } else {
      assert ThreadInv(s.g, t, s.pc[t]);
      StepOut(s.g, t, s.pc[t]);
      var a := Do(t, WayOut(s.g, s.pc[t]));
      Preserves(s, a);
      var rest := WalkOut(Apply(s, a), t);
      run := [a] + rest;
      assert run[1..] == rest;
    }
  }
}
