/**
 The bounded command channel between session handles and the driver task. Any number of callers
 submit, may give up at either await, and learn either the reply or SessionClosed; the driver
 receives one command at a time and may leave its loop at any select.
 */
module CommandActor {
  type Id = nat

  datatype Caller = Sending | Waiting | Replied | Closed | GaveUp

  datatype Driver = Selecting | Running(id: Id) | Leaving | Gone

  datatype State = State(
    capacity: nat,
    queue: seq<Id>,
    driver: Driver,
    commandsOpen: bool,       // the loop still polls the receiver
    handles: bool,            // some SessionHandle exists
    callers: map<Id, Caller>,
    // history
    accepted: seq<Id>,        // commands that entered the channel, in order
    executed: seq<Id>,        // commands run to completion and answered, in order
    discarded: seq<Id>        // commands dropped with the receiver
  )

  datatype Step =
    | Submit(id: Id)
    | Accept(id: Id)
    | Refuse(id: Id)
    | GiveUp(id: Id)
    | Receive
    | ReceiveNone
    | Finish
    | Leave
    | Exit
    | GetReply(id: Id)
    | GetClosed(id: Id)
    | DropHandles

  predicate Is(s: State, id: Id, c: Caller) {
    id in s.callers && s.callers[id] == c
  }

  predicate Enabled(s: State, e: Step) {
    match e
    case Submit(id) => s.handles && id !in s.callers
    case Accept(id) => Is(s, id, Sending) && !s.driver.Gone? && |s.queue| < s.capacity
    case Refuse(id) => Is(s, id, Sending) && s.driver.Gone?
    case GiveUp(id) => Is(s, id, Sending) || Is(s, id, Waiting)
    case Receive => s.driver.Selecting? && s.commandsOpen && s.queue != []
    case ReceiveNone => s.driver.Selecting? && s.commandsOpen && s.queue == [] && !s.handles
    case Finish => s.driver.Running?
    case Leave => s.driver.Selecting?
    case Exit => s.driver.Leaving?
    case GetReply(id) => Is(s, id, Waiting) && id in s.executed
    case GetClosed(id) => Is(s, id, Waiting) && id in s.discarded
    case DropHandles => s.handles && forall id :: id in s.callers ==> !s.callers[id].Sending? && !s.callers[id].Waiting?
  }

  function Turn(s: State, id: Id, c: Caller): State {
    s.(callers := s.callers[id := c])
  }

  function Apply(s: State, e: Step): State
    requires Enabled(s, e)
  {
    match e
    case Submit(id) => Turn(s, id, Sending)
    case Accept(id) => Turn(s, id, Waiting).(queue := s.queue + [id], accepted := s.accepted + [id])
    case Refuse(id) => Turn(s, id, Closed)
    case GiveUp(id) => Turn(s, id, GaveUp)
    case Receive => s.(driver := Running(s.queue[0]), queue := s.queue[1..])
    case ReceiveNone => s.(commandsOpen := false)
    case Finish => s.(driver := Selecting, executed := s.executed + [s.driver.id])
    case Leave => s.(driver := Leaving)
    case Exit => s.(driver := Gone, queue := [], discarded := s.queue)
    case GetReply(id) => Turn(s, id, Replied)
    case GetClosed(id) => Turn(s, id, Closed)
    case DropHandles => s.(handles := false)
  }

  /** `command_capacity` raises a configured zero to one. */
  function Initial(configured: nat): State {
    State(if configured < 1 then 1 else configured, [], Selecting, true, true, map[], [], [], [])
  }

  ghost predicate Possible(s: State, run: seq<Step>)
    decreases |run|
  {
    run == [] || (Enabled(s, run[0]) && Possible(Apply(s, run[0]), run[1..]))
  }

  ghost function Exec(s: State, run: seq<Step>): State
    requires Possible(s, run)
    decreases |run|
  {
    if run == [] then s else Exec(Apply(s, run[0]), run[1..])
  }

  function InHand(d: Driver): seq<Id> {
    if d.Running? then [d.id] else []
  }

  ghost predicate Distinct(ids: seq<Id>) {
    forall i, j :: 0 <= i < j < |ids| ==> ids[i] != ids[j]
  }

  predicate CallerOk(s: State, id: Id, c: Caller) {
    match c
    case Sending => id !in s.accepted
    case Waiting => id in s.accepted
    case Replied => id in s.executed
    case Closed => id !in s.executed && s.driver.Gone?
    case GaveUp => true
  }

  ghost predicate ChannelInv(s: State) {
    && s.accepted == s.executed + InHand(s.driver) + s.queue + s.discarded
    && (s.driver.Gone? ==> s.queue == []) && (!s.driver.Gone? ==> s.discarded == [])
    && Distinct(s.accepted)
    && |s.queue| <= s.capacity
  }

  ghost predicate CallersInv(s: State) {
    && (forall id :: id in s.accepted ==> id in s.callers)
    && (forall id :: id in s.callers ==> CallerOk(s, id, s.callers[id]))
  }

  ghost predicate Inv(s: State) {
    ChannelInv(s) && CallersInv(s)
  }

  /** Where an accepted command can be, and only there. */
  lemma Place(s: State, id: Id)
    requires Inv(s) && id in s.accepted
    ensures id in s.executed || id in InHand(s.driver) || id in s.queue || id in s.discarded
    ensures !(id in s.executed && id in s.discarded)
  {
    var ab, abc := s.executed + InHand(s.driver), s.executed + InHand(s.driver) + s.queue;
    assert s.accepted == abc + s.discarded && abc == ab + s.queue;
    forall i, j | 0 <= i < |s.executed| && 0 <= j < |s.discarded|
      ensures s.executed[i] != s.discarded[j]
    {
      assert s.accepted[i] == s.executed[i] && s.accepted[|abc| + j] == s.discarded[j];
    }
  }

  lemma KeepsChannel(s: State, e: Step)
    requires ChannelInv(s) && Enabled(s, e) && (e.Accept? ==> e.id !in s.accepted)
    ensures ChannelInv(Apply(s, e))
  {
    match e
    case Receive => assert s.queue == [s.queue[0]] + s.queue[1..];
    case Finish => assert Apply(s, e).executed + s.queue == s.executed + [s.driver.id] + s.queue;
    case _ =>
  }

  lemma KeepsCaller(s: State, e: Step, id: Id)
    requires Inv(s) && Enabled(s, e) && id in Apply(s, e).callers
    ensures CallerOk(Apply(s, e), id, Apply(s, e).callers[id])
  {
    match e
    case GetClosed(c) => Place(s, c);
    case Refuse(_) => assert s.accepted == s.executed + s.discarded;
    case _ =>
  }

  lemma Preserves(s: State, e: Step)
    requires Inv(s) && Enabled(s, e)
    ensures Inv(Apply(s, e))
  {
    KeepsChannel(s, e);
    var s' := Apply(s, e);
    forall id | id in s'.callers ensures CallerOk(s', id, s'.callers[id]) {
      KeepsCaller(s, e, id);
    }
  }

  lemma {:induction false} RunKeepsInv(s: State, run: seq<Step>)
    requires Inv(s) && Possible(s, run)
    ensures Inv(Exec(s, run)) && Exec(s, run).capacity == s.capacity
    decreases |run|
  {
    if run != [] {
      Preserves(s, run[0]);
      RunKeepsInv(Apply(s, run[0]), run[1..]);
    }
  }

  /** Whatever the select choices and the exit point: commands are executed in acceptance order
      without gap or repetition, and the channel never exceeds its capacity. */
  lemma ExecutedInAcceptanceOrder(configured: nat, run: seq<Step>)
    requires Possible(Initial(configured), run)
    ensures var s := Exec(Initial(configured), run);
            s.executed <= s.accepted && Distinct(s.accepted) && |s.queue| <= (if configured < 1 then 1 else configured)
  {
    RunKeepsInv(Initial(configured), run);
    ExecutedPrefix(Exec(Initial(configured), run));
  }

  lemma ExecutedPrefix(s: State)
    requires ChannelInv(s)
    ensures s.executed <= s.accepted
  {
    var tail := InHand(s.driver) + s.queue + s.discarded;
    assert s.accepted == s.executed + tail;
  }

  /** A caller that got a reply had its command executed; one that got SessionClosed did not and
      never will. A waiting caller can get its reply exactly once its command was executed, whatever
      the driver does then, and SessionClosed exactly once the driver is gone without that. */
  lemma AnswerIsTruthful(configured: nat, run: seq<Step>, later: seq<Step>, id: Id)
    requires Possible(Initial(configured), run)
    requires Possible(Exec(Initial(configured), run), later)
    ensures var s, z := Exec(Initial(configured), run), Exec(Exec(Initial(configured), run), later);
            && (Is(s, id, Replied) ==> id in s.executed)
            && (Is(s, id, Closed) ==> id !in z.executed)
            && (Is(s, id, Waiting) ==>
                  && (Enabled(s, GetReply(id)) <==> id in s.executed)
                  && (Enabled(s, GetClosed(id)) <==> s.driver.Gone? && id !in s.executed))
  {
    RunKeepsInv(Initial(configured), run);
    var s := Exec(Initial(configured), run);
    if Is(s, id, Closed) { ClosedForGood(s, later); }
    if Is(s, id, Waiting) { WaitingAnswer(s, id); }
  }

  lemma WaitingAnswer(s: State, id: Id)
    requires Inv(s) && Is(s, id, Waiting)
    ensures Enabled(s, GetReply(id)) <==> id in s.executed
    ensures Enabled(s, GetClosed(id)) <==> s.driver.Gone? && id !in s.executed
  {
    assert CallerOk(s, id, s.callers[id]);
    Place(s, id);
  }

  lemma {:induction false} ClosedForGood(s: State, run: seq<Step>)
    requires Inv(s) && Possible(s, run) && s.driver.Gone?
    ensures Exec(s, run).executed == s.executed
    decreases |run|
  {
    if run != [] {
      Preserves(s, run[0]);
      ClosedForGood(Apply(s, run[0]), run[1..]);
    }
  }

  // ---------------------------------------------------------------- what a run says by itself

  function Front(run: seq<Step>): seq<Step>
    requires run != []
  {
    run[..|run| - 1]
  }

  function Last(run: seq<Step>): Step
    requires run != []
  {
    run[|run| - 1]
  }

  predicate Has(run: seq<Step>, e: Step) {
    exists i :: 0 <= i < |run| && run[i] == e
  }

  lemma HasSnoc(run: seq<Step>, e: Step)
    requires run != []
    ensures Has(run, e) <==> Has(Front(run), e) || Last(run) == e
  {
    if Has(Front(run), e) {
      var i :| 0 <= i < |run| - 1 && Front(run)[i] == e;
      assert run[i] == e;
    }
    if Has(run, e) {
      var i :| 0 <= i < |run| && run[i] == e;
      assert i < |run| - 1 ==> Front(run)[i] == e;
    }
  }

  lemma {:induction false} RunSplit(s: State, run: seq<Step>)
    requires Possible(s, run) && run != []
    ensures Possible(s, Front(run)) && Enabled(Exec(s, Front(run)), Last(run))
    ensures Exec(s, run) == Apply(Exec(s, Front(run)), Last(run))
    decreases |run|
  {
    if |run| == 1 {
      assert run[1..] == [] && Front(run) == [];
    } else {
      RunSplit(Apply(s, run[0]), run[1..]);
      assert Front(run[1..]) == Front(run)[1..];
    }
  }

  /** The commands that entered the channel, in order. */
  function AcceptedIds(run: seq<Step>): seq<Id> {
    if run == [] then [] else AcceptedIds(Front(run)) + if Last(run).Accept? then [Last(run).id] else []
  }

  function Finished(run: seq<Step>): nat {
    if run == [] then 0 else Finished(Front(run)) + if Last(run).Finish? then 1 else 0
  }

  function Received(run: seq<Step>): nat {
    if run == [] then 0 else Received(Front(run)) + if Last(run).Receive? then 1 else 0
  }

  /** Where the driver stands, from its own steps. */
  predicate DriverTold(run: seq<Step>, s: State) {
    && (s.driver.Gone? <==> Has(run, Exit)) && (s.driver.Leaving? || s.driver.Gone? <==> Has(run, Leave))
    && Received(run) == Finished(run) + |InHand(s.driver)|
    && (s.commandsOpen <==> !Has(run, ReceiveNone)) && (s.handles <==> !Has(run, DropHandles))
  }

  /** What has become of the commands: the first finished ones were executed, in acceptance order. */
  predicate CommandsTold(ids: seq<Id>, finished: nat, s: State) {
    s.accepted == ids && finished <= |ids| && s.executed == ids[..finished]
  }

  /** What is queued: the accepted commands that were not received. */
  predicate QueueTold(ids: seq<Id>, received: nat, s: State) {
    !s.driver.Gone? ==> received <= |ids| && s.queue == ids[received..]
  }

  /** What a caller knows, from the steps with its name. */
  predicate CallerTold(run: seq<Step>, s: State, id: Id) {
    && (id in s.callers <==> Has(run, Submit(id)))
    && (Has(run, Accept(id)) || Has(run, Refuse(id)) || Has(run, GiveUp(id)) ==> Has(run, Submit(id)))
    && (Is(s, id, Replied) <==> Has(run, GetReply(id)))
    && (Is(s, id, Closed) <==> Has(run, Refuse(id)) || Has(run, GetClosed(id)))
    && (Is(s, id, GaveUp) <==> Has(run, GiveUp(id)))
    && (Is(s, id, Sending) || Is(s, id, Waiting) ==> !Has(run, Refuse(id)) && !Has(run, GiveUp(id)))
    && (Is(s, id, Waiting) ==> Has(run, Accept(id))) && (Is(s, id, Sending) ==> !Has(run, Accept(id)))
  }

  lemma DriverStep(run: seq<Step>, s: State)
    requires run != [] && DriverTold(Front(run), s) && Enabled(s, Last(run))
    ensures DriverTold(run, Apply(s, Last(run)))
  {
    HasSnoc(run, Exit);
    HasSnoc(run, Leave);
    HasSnoc(run, ReceiveNone);
    HasSnoc(run, DropHandles);
  }

  lemma FinishExecutes(s: State, ids: seq<Id>)
    requires ChannelInv(s) && s.accepted == ids && s.driver.Running? && s.executed == ids[..|s.executed|]
    ensures |s.executed| < |ids| && s.executed + [s.driver.id] == ids[..|s.executed| + 1]
  {
    var rest := [s.driver.id] + (s.queue + s.discarded);
    assert ids == s.executed + rest;
    assert ids[|s.executed|] == rest[0];
  }

  lemma CommandsStep(run: seq<Step>, s: State)
    requires run != [] && ChannelInv(s) && Enabled(s, Last(run))
    requires CommandsTold(AcceptedIds(Front(run)), Finished(Front(run)), s)
    ensures CommandsTold(AcceptedIds(run), Finished(run), Apply(s, Last(run)))
  {
    var ids := AcceptedIds(Front(run));
    assert ids + [] == ids;
    match Last(run)
    case Accept(id) => assert (ids + [id])[..Finished(run)] == ids[..Finished(run)];
    case Finish => FinishExecutes(s, ids);
    case _ =>
  }

  lemma QueueStep(run: seq<Step>, s: State)
    requires run != [] && Enabled(s, Last(run))
    requires QueueTold(AcceptedIds(Front(run)), Received(Front(run)), s)
    ensures QueueTold(AcceptedIds(run), Received(run), Apply(s, Last(run)))
  {
    var ids, n := AcceptedIds(Front(run)), Received(Front(run));
    assert ids + [] == ids;
    match Last(run)
    case Accept(id) => assert (ids + [id])[n..] == ids[n..] + [id];
    case Receive => assert ids[n..][1..] == ids[n + 1..];
    case _ =>
  }

  lemma CallerStep(run: seq<Step>, s: State, id: Id)
    requires run != [] && CallerTold(Front(run), s, id) && Enabled(s, Last(run))
    ensures CallerTold(run, Apply(s, Last(run)), id)
  {
    HasSnoc(run, Submit(id));
    HasSnoc(run, Accept(id));
    HasSnoc(run, Refuse(id));
    HasSnoc(run, GiveUp(id));
    HasSnoc(run, GetReply(id));
    HasSnoc(run, GetClosed(id));
  }

  /** In every run the channel is what its steps say: which commands were accepted, executed and are
      queued, where the driver stands, and what each caller has learned. */
  lemma {:induction false} ChannelFollowsSteps(configured: nat, run: seq<Step>, id: Id)
    requires Possible(Initial(configured), run)
    ensures var s := Exec(Initial(configured), run);
            && Inv(s) && DriverTold(run, s) && CallerTold(run, s, id)
            && CommandsTold(AcceptedIds(run), Finished(run), s) && QueueTold(AcceptedIds(run), Received(run), s)
    decreases |run|
  {
    if run != [] {
      RunSplit(Initial(configured), run);
      ChannelFollowsSteps(configured, Front(run), id);
      var s := Exec(Initial(configured), Front(run));
      DriverStep(run, s);
      CommandsStep(run, s);
      QueueStep(run, s);
      CallerStep(run, s, id);
      Preserves(s, Last(run));
    }
  }
}
