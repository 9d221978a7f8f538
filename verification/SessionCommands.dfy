/**
 One session together with its command channel: what the answer to `SessionHandle::stop` says about
 the session. The driver's steps on commands happen in both models at once.
 */
module SessionCommands {
  import opened Options
  import C = ClientCore
  import T = TokioSession
  import I = TokioInvariant
  import S = TokioSafety
  import H = TokioHistory
  import A = CommandActor

  /** The Tokio layer, the channel of one session, and which commands are stops. */
  datatype State = State(t: T.State, a: A.State, stops: set<A.Id>)

  datatype Step =
    | Other(e: T.Step)               // any step of the layer but the driver's own
    | Drive(ds: T.DriverStep)        // a step of the session's driver
    | Submit(id: A.Id, stop: bool)   // a caller submits a command
    | Channel(ce: A.Step)            // any other step of callers and channel

  function Initial(configured: nat): State {
    State(T.INITIAL, A.Initial(configured), {})
  }

  predicate Spawned(s: State, k: nat) {
    k < |s.t.sess|
  }

  /** What a step of the driver does to the channel. */
  function OnChannel(at: T.Drive, ds: T.DriverStep): Option<A.Step> {
    match ds
    case TakeStop => Some(A.Receive)
    case TakeControl => Some(A.Receive)
    case TakeJoin => if at.Selecting? then Some(A.Leave) else None
    case TakeCancel => Some(A.Leave)
    case Halted => if at.Halting? && at.why.Command? then Some(A.Finish) else None
    case CommandDone => Some(A.Finish)
    case _ => None
  }

  predicate DriveEnabled(s: State, k: nat, ds: T.DriverStep) {
    && Spawned(s, k) && T.Enabled(s.t, T.ByDriver(k, ds))
    && var step := OnChannel(s.t.sess[k].at, ds);
       && (step.Some? ==> A.Enabled(s.a, step.value))
       && (ds.TakeStop? ==> s.a.queue[0] in s.stops) && (ds.TakeControl? ==> s.a.queue[0] !in s.stops)
  }

  predicate Enabled(s: State, k: nat, e: Step) {
    match e
    case Other(step) => T.Enabled(s.t, step) && !(step.ByDriver? && step.k == k)
    case Drive(ds) => DriveEnabled(s, k, ds)
    case Submit(id, _) => Spawned(s, k) && T.Returned(s.t.sess[k]) && A.Enabled(s.a, A.Submit(id))
    case Channel(ce) =>
      && A.Enabled(s.a, ce) && !ce.Submit? && !ce.Receive? && !ce.Finish? && !ce.Leave?
      && (ce.Exit? ==> Spawned(s, k) && s.t.sess[k].at.Exited?)
  }

  function Apply(s: State, k: nat, e: Step): State
    requires Enabled(s, k, e)
  {
    match e
    case Other(step) => s.(t := T.Apply(s.t, step))
    case Drive(ds) =>
      var step := OnChannel(s.t.sess[k].at, ds);
      s.(t := T.Apply(s.t, T.ByDriver(k, ds)), a := if step.Some? then A.Apply(s.a, step.value) else s.a)
    case Submit(id, stop) => s.(a := A.Apply(s.a, A.Submit(id)), stops := if stop then s.stops + {id} else s.stops)
    case Channel(ce) => s.(a := A.Apply(s.a, ce))
  }

  ghost predicate Possible(s: State, k: nat, run: seq<Step>)
    decreases |run|
  {
    run == [] || (Enabled(s, k, run[0]) && Possible(Apply(s, k, run[0]), k, run[1..]))
  }

  ghost function Exec(s: State, k: nat, run: seq<Step>): State
    requires Possible(s, k, run)
    decreases |run|
  {
    if run == [] then s else Exec(Apply(s, k, run[0]), k, run[1..])
  }

  // ---------------------------------------------------------------- the two drivers agree

  datatype Mode = Looping | InStop | InCommand | Quitting | Exited

  function ModeOf(at: T.Drive): Mode {
    match at
    case Unspawned => Looping
    case Selecting => Looping
    case Halting(why, _) => if why.Command? then InStop else Quitting
    case Commanding(_) => InCommand
    case Exited => Exited
    case _ => Quitting
  }

  function DriverMode(sess: seq<T.Sess>, k: nat): Mode {
    if k < |sess| then ModeOf(sess[k].at) else Looping
  }

  predicate Agree(mode: Mode, driver: A.Driver, stops: set<A.Id>) {
    match mode
    case Looping => driver.Selecting?
    case InStop => driver.Running? && driver.id in stops
    case InCommand => driver.Running? && driver.id !in stops
    case Quitting => driver.Leaving?
    case Exited => driver.Leaving? || driver.Gone?
  }

  /** An executed stop has set the flag for good. */
  predicate StopsDone(g: C.Shared, a: A.State, stops: set<A.Id>) {
    forall id :: id in stops && id in a.executed ==> g.cleared && g.stopRequested
  }

  ghost predicate Inv(s: State, k: nat) {
    && I.Inv(s.t) && A.Inv(s.a) && Agree(DriverMode(s.t.sess, k), s.a.driver, s.stops)
    && StopsDone(s.t.core.g, s.a, s.stops) && (forall id :: id in s.stops ==> id in s.a.callers)
  }

  // ---------------------------------------------------------------- steps of the layer

  lemma FutureKeepsMode(t: T.State, f: T.Fid, e: T.FutureStep, k: nat)
    requires T.FutureGuard(t, f, e) && (f in t.futs ==> I.FutInv(t, f))
    ensures DriverMode(T.FutureEffect(t, f, e).sess, k) == DriverMode(t.sess, k)
  {
  }

  lemma DoKeepsMode(t: T.State, u: T.Tid, act: C.Act, fired: bool, k: nat)
    requires T.Permits(t, u, act)
    ensures DriverMode(T.DoEffect(t, u, act, fired).sess, k) == DriverMode(t.sess, k)
  {
  }

  lemma UserKeepsMode(t: T.State, j: nat, e: T.UserStep, k: nat)
    requires T.UserGuard(t, j, e)
    ensures DriverMode(T.UserEffect(t, j, e).sess, k) == DriverMode(t.sess, k)
  {
  }

  lemma EffectKeepsMode(t: T.State, e: T.Step, k: nat)
    requires I.Inv(t) && T.Enabled(t, e) && !(e.ByDriver? && e.k == k)
    ensures DriverMode(T.Effect(t, e).sess, k) == DriverMode(t.sess, k)
  {
    match e
    case ByFut(f, fs) =>
      if f in t.futs { assert I.FutInv(t, f); }
      FutureKeepsMode(t, f, fs, k);
    case Do(u, act) => DoKeepsMode(t, u, act, C.Did(t.core.g, u, t.core.pc[u], act).0.fired > t.core.g.fired, k);
    case ByUser(j, us) => UserKeepsMode(t, j, us, k);
    case _ =>
  }

  lemma OtherPreserves(s: State, k: nat, e: T.Step)
    requires Inv(s, k) && Enabled(s, k, Other(e))
    ensures Inv(Apply(s, k, Other(e)), k)
  {
    S.Preserves(s.t, e);
    EffectKeepsMode(s.t, e, k);
    if s.t.core.g.cleared && s.t.core.g.stopRequested { H.RequestKept(s.t, e); }
  }

  // ---------------------------------------------------------------- steps of the driver

  lemma DriveKeepsAgreement(at: T.Drive, a: A.State, stops: set<A.Id>, ds: T.DriverStep)
    requires Agree(ModeOf(at), a.driver, stops) && (ds.Halted? ==> at.Halting?)
    requires match ds
             case TakeJoin => at.Selecting? || at.Joining?
             case Halted => true
             case CommandDone => at.Commanding?
             case Clear => at.Clearing?
             case Send => at.Sending?
             case _ => at.Selecting?
    requires OnChannel(at, ds).Some? ==> A.Enabled(a, OnChannel(at, ds).value)
    requires (ds.TakeStop? ==> a.queue[0] in stops) && (ds.TakeControl? ==> a.queue[0] !in stops)
    ensures var step := OnChannel(at, ds);
            Agree(ModeOf(T.NextDrive(at, ds)), (if step.Some? then A.Apply(a, step.value) else a).driver, stops)
  {
  }

  /** A driver that has run `core.stop()` has set the flag, after `connect` cleared it. */
  lemma HaltedRequested(t: T.State, k: nat)
    requires I.Inv(t) && k < |t.sess| && t.sess[k].at.Halting? && t.sess[k].at.swapped
    ensures t.core.g.cleared && t.core.g.stopRequested
  {
    assert I.SessInv(t, k) && I.SessInv(t, 0);
  }

  lemma DriveCore(t: T.State, k: nat, ds: T.DriverStep)
    requires T.Enabled(t, T.ByDriver(k, ds))
    ensures var t' := T.Apply(t, T.ByDriver(k, ds));
            && |t'.sess| == |t.sess| && t'.sess[k].at == T.NextDrive(t.sess[k].at, ds)
            && t'.core.g.cleared == t.core.g.cleared && t'.core.g.stopRequested == t.core.g.stopRequested
  {
  }

  /** Only finishing a stop adds an executed one. */
  lemma DriveStops(g: C.Shared, at: T.Drive, a: A.State, stops: set<A.Id>, ds: T.DriverStep)
    requires StopsDone(g, a, stops) && Agree(ModeOf(at), a.driver, stops)
    requires OnChannel(at, ds).Some? && A.Enabled(a, OnChannel(at, ds).value)
    requires at.Halting? && ds.Halted? ==> g.cleared && g.stopRequested
    requires ds.CommandDone? ==> at.Commanding?
    ensures StopsDone(g, A.Apply(a, OnChannel(at, ds).value), stops)
  {
  }

  lemma DriveChannel(s: State, k: nat, ds: T.DriverStep)
    requires A.Inv(s.a) && StopsDone(s.t.core.g, s.a, s.stops) && DriveEnabled(s, k, ds)
    requires ds.Halted? ==> s.t.core.g.cleared && s.t.core.g.stopRequested
    requires Agree(ModeOf(s.t.sess[k].at), s.a.driver, s.stops)
    ensures var a := Apply(s, k, Drive(ds)).a;
            A.Inv(a) && StopsDone(s.t.core.g, a, s.stops) && a.callers == s.a.callers
  {
    var at := s.t.sess[k].at;
    if OnChannel(at, ds).Some? {
      A.Preserves(s.a, OnChannel(at, ds).value);
      DriveStops(s.t.core.g, at, s.a, s.stops, ds);
    }
  }

  lemma DrivePreserves(s: State, k: nat, ds: T.DriverStep)
    requires Inv(s, k) && Enabled(s, k, Drive(ds))
    ensures Inv(Apply(s, k, Drive(ds)), k)
  {
    S.Preserves(s.t, T.ByDriver(k, ds));
    DriveCore(s.t, k, ds);
    DriveKeepsAgreement(s.t.sess[k].at, s.a, s.stops, ds);
    if ds.Halted? { HaltedRequested(s.t, k); }
    DriveChannel(s, k, ds);
  }

  // ---------------------------------------------------------------- steps of the channel

  lemma SubmitPreserves(s: State, k: nat, id: A.Id, stop: bool)
    requires Inv(s, k) && Enabled(s, k, Submit(id, stop))
    ensures Inv(Apply(s, k, Submit(id, stop)), k)
  {
    A.Preserves(s.a, A.Submit(id));
    NotYetKnown(s.a, id);
  }

  lemma NotYetKnown(a: A.State, id: A.Id)
    requires A.Inv(a) && id !in a.callers
    ensures id !in a.executed && (a.driver.Running? ==> a.driver.id != id)
  {
    var tail := A.InHand(a.driver) + a.queue + a.discarded;
    assert a.accepted == a.executed + tail;
    assert a.driver.Running? ==> tail[0] == a.driver.id;
  }

  lemma ChannelPreserves(s: State, k: nat, ce: A.Step)
    requires Inv(s, k) && Enabled(s, k, Channel(ce))
    ensures Inv(Apply(s, k, Channel(ce)), k)
  {
    A.Preserves(s.a, ce);
  }

  lemma Preserves(s: State, k: nat, e: Step)
    requires Inv(s, k) && Enabled(s, k, e)
    ensures Inv(Apply(s, k, e), k)
  {
    match e
    case Other(step) => OtherPreserves(s, k, step);
    case Drive(ds) => DrivePreserves(s, k, ds);
    case Submit(id, stop) => SubmitPreserves(s, k, id, stop);
    case Channel(ce) => ChannelPreserves(s, k, ce);
  }

  lemma {:induction false} RunKeepsInv(s: State, k: nat, run: seq<Step>)
    requires Inv(s, k) && Possible(s, k, run)
    ensures Inv(Exec(s, k, run), k)
    decreases |run|
  {
    if run != [] {
      Preserves(s, k, run[0]);
      RunKeepsInv(Apply(s, k, run[0]), k, run[1..]);
    }
  }

  // ---------------------------------------------------------------- what an answer means

  /** The stop has reached Core, is about to, or has nothing left to stop. */
  ghost predicate Settled(core: C.State) {
    core.g.stopRequested && (core.g.teardown.Alive? ==> core.g.delivered || C.Pending(core) || core.g.phase.Done?)
  }

  lemma RequestSettled(t: T.State)
    requires I.Inv(t) && t.core.g.cleared && t.core.g.stopRequested
    ensures Settled(t.core)
  {
  }

  lemma ExitedSession(t: T.State, k: nat)
    requires I.Inv(t) && k < |t.sess| && t.sess[k].at.Exited?
    ensures t.core.g.lifecycle.Finished? && t.core.g.phase.Done? && t.core.g.cleared && t.core.g.stopRequested
  {
    assert I.SessInv(t, k);
  }

  /** In every run of a session with its channel: when `stop().await` returns Ok the stop has been
      requested and is delivered, about to be delivered or moot; when it returns SessionClosed the
      driver has left its loop and exited, native connect is over and a stop was requested too. */
  lemma StopAnswered(configured: nat, k: nat, run: seq<Step>, id: A.Id)
    requires Possible(Initial(configured), k, run) && id in Exec(Initial(configured), k, run).stops
    ensures var s := Exec(Initial(configured), k, run);
            && (A.Is(s.a, id, A.Replied) ==> Settled(s.t.core))
            && (A.Is(s.a, id, A.Closed) ==>
                  && Settled(s.t.core) && k < |s.t.sess| && s.t.sess[k].at.Exited?
                  && s.t.core.g.phase.Done? && s.t.core.g.lifecycle.Finished?)
  {
    I.InitialHolds();
    RunKeepsInv(Initial(configured), k, run);
    AnswerMeans(Exec(Initial(configured), k, run), k, id);
  }

  lemma AnswerMeans(s: State, k: nat, id: A.Id)
    requires Inv(s, k) && id in s.stops
    ensures A.Is(s.a, id, A.Replied) ==> Settled(s.t.core)
    ensures A.Is(s.a, id, A.Closed) ==>
              && Settled(s.t.core) && k < |s.t.sess| && s.t.sess[k].at.Exited?
              && s.t.core.g.phase.Done? && s.t.core.g.lifecycle.Finished?
  {
    if A.Is(s.a, id, A.Replied) {
      RequestSettled(s.t);
    } else if A.Is(s.a, id, A.Closed) {
      ExitedSession(s.t, k);
      RequestSettled(s.t);
    }
  }
}
