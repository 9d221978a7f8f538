/**
 The return path of an external transport. Any thread posts calls under the state mutex; Core's
 single I/O thread runs the queued closures one after another, and each closure reads the parent
 when it runs. Reparenting and destruction happen on the I/O thread, possibly inside a delivery.
 */
module ExternalTransport {
  import opened Options

  /** What a transport implementation may report to Core. */
  datatype Call =
    | Receive(packet: seq<bv8>)
    | NeedsSend
    | Error(code: int, message: string)
    | ProxyError(code: int, message: string)
    | PreResolve
    | WaitProxy
    | Wait
    | Connecting

  type Parent = nat

  datatype Done = Delivered(call: Call, parent: Parent) | Discarded(call: Call)

  datatype State = State(
    parent: Option<Parent>,
    io: bool,                // the io_context pointer is not null; false once destroyed
    queue: seq<Call>,
    busy: bool,              // the I/O thread is inside a delivery
    // history
    accepted: seq<Call>,     // calls whose post returned 1, in order
    done: seq<Done>          // closures that ran, in order
  )

  datatype Step =
    | Post(call: Call)
    | RunNext
    | EndDelivery
    | Reparent(to: Option<Parent>)
    | Destroy

  predicate Accepts(s: State) {
    s.io && s.parent.Some?
  }

  predicate Enabled(s: State, e: Step) {
    match e
    case Post(_) => true
    case RunNext => !s.busy && s.queue != []
    case EndDelivery => s.busy
    case Reparent(_) => s.io
    case Destroy => s.io
  }

  function Apply(s: State, e: Step): State
    requires Enabled(s, e)
  {
    match e
    case Post(call) =>
      if Accepts(s) then s.(queue := s.queue + [call], accepted := s.accepted + [call]) else s
    case RunNext =>
      var call, s' := s.queue[0], s.(queue := s.queue[1..]);
      if s.parent.Some? then s'.(busy := true, done := s.done + [Delivered(call, s.parent.value)])
      else s'.(done := s.done + [Discarded(call)])
    case EndDelivery => s.(busy := false)
    case Reparent(to) => s.(parent := to)
    case Destroy => s.(parent := None, io := false)
  }

  function Initial(parent: Parent): State {
    State(Some(parent), true, [], false, [], [])
  }

  ghost predicate Possible(s: State, run: seq<Step>)
    decreases |run|
  {
    run == [] || (Enabled(s, run[0]) && Possible(Apply(s, run[0]), run[1..]))
  }

  ghost function Exec(s: State, run: seq<Step>): State
    requires Possible(s, run)
    decreases |run|
  {
    if run == [] then s else Exec(Apply(s, run[0]), run[1..])
  }

  function Calls(done: seq<Done>): seq<Call> {
    seq(|done|, i requires 0 <= i < |done| => done[i].call)
  }

  /** Every accepted call is processed or queued, once and in acceptance order. */
  ghost predicate Conserved(s: State) {
    s.accepted == Calls(s.done) + s.queue
  }

  /** Deliveries first, then discards. */
  ghost predicate DiscardsLast(done: seq<Done>) {
    forall i, j :: 0 <= i < j < |done| && done[i].Discarded? ==> done[j].Discarded?
  }

  lemma ConservedStep(s: State, e: Step)
    requires Conserved(s) && Enabled(s, e)
    ensures Conserved(Apply(s, e))
    ensures s.accepted <= Apply(s, e).accepted && s.done <= Apply(s, e).done
  {
    var s' := Apply(s, e);
    if e.RunNext? {
      assert s.queue == [s.queue[0]] + s.queue[1..];
      assert Calls(s'.done) == Calls(s.done) + [s.queue[0]];
    }
  }

  /** In every run, what was accepted is what was processed followed by what is queued; both
      histories only grow. */
  lemma {:induction false} Conservation(s: State, run: seq<Step>)
    requires Conserved(s) && Possible(s, run)
    ensures Conserved(Exec(s, run))
    ensures s.accepted <= Exec(s, run).accepted && s.done <= Exec(s, run).done
    decreases |run|
  {
    if run != [] {
      ConservedStep(s, run[0]);
      Conservation(Apply(s, run[0]), run[1..]);
    }
  }

  // ---------------------------------------------------------------- what a run says by itself

  function Front(run: seq<Step>): seq<Step>
    requires run != []
  {
    run[..|run| - 1]
  }

  function Last(run: seq<Step>): Step
    requires run != []
  {
    run[|run| - 1]
  }

  /** The parent after some steps: what the last reparenting or destruction in them left. */
  function ParentAfter(first: Parent, run: seq<Step>): Option<Parent> {
    if run == [] then Some(first)
    else
      match Last(run)
      case Reparent(to) => to
      case Destroy => None
      case _ => ParentAfter(first, Front(run))
  }

  /** The calls posted while there was a parent, in order. */
  function PostedTo(first: Parent, run: seq<Step>): seq<Call> {
    if run == [] then []
    else
      PostedTo(first, Front(run))
      + if Last(run).Post? && ParentAfter(first, Front(run)).Some? then [Last(run).call] else []
  }

  /** The parents at the moments when the I/O thread ran a closure, in order. */
  function ParentsAtRuns(first: Parent, run: seq<Step>): seq<Option<Parent>> {
    if run == [] then []
    else
      ParentsAtRuns(first, Front(run)) + if Last(run).RunNext? then [ParentAfter(first, Front(run))] else []
  }

  /** The I/O thread is inside a delivery: the last closure that found a parent has not ended. */
  predicate Delivering(first: Parent, run: seq<Step>) {
    && run != []
    && match Last(run)
       case RunNext => ParentAfter(first, Front(run)).Some? || Delivering(first, Front(run))
       case EndDelivery => false
       case _ => Delivering(first, Front(run))
  }

  function Record(call: Call, parent: Option<Parent>): Done {
    match parent
    case None => Discarded(call)
    case Some(p) => Delivered(call, p)
  }

  /** A run without its last step, and that step. */
  lemma {:induction false} RunSplit(s: State, run: seq<Step>)
    requires Possible(s, run) && run != []
    ensures Possible(s, Front(run)) && Enabled(Exec(s, Front(run)), Last(run))
    ensures Exec(s, run) == Apply(Exec(s, Front(run)), Last(run))
    decreases |run|
  {
    if |run| == 1 {
      assert run[1..] == [] && Front(run) == [];
    } else {
      RunSplit(Apply(s, run[0]), run[1..]);
      assert Front(run[1..]) == Front(run)[1..];
    }
  }

  /** What the cells hold, in terms of the steps taken. */
  ghost predicate Traced(first: Parent, run: seq<Step>, s: State) {
    && s.parent == ParentAfter(first, run) && (!s.io ==> s.parent.None?) && (s.busy <==> Delivering(first, run))
    && s.accepted == PostedTo(first, run) && Conserved(s)
    && |s.done| == |ParentsAtRuns(first, run)|
    && forall i :: 0 <= i < |s.done| ==> s.done[i] == Record(s.accepted[i], ParentsAtRuns(first, run)[i])
  }

  lemma TracedStep(first: Parent, run: seq<Step>, s: State)
    requires run != [] && Traced(first, Front(run), s) && Enabled(s, Last(run))
    ensures Traced(first, run, Apply(s, Last(run)))
  {
    ConservedStep(s, Last(run));
    if Last(run).RunNext? {
      assert s.accepted[|s.done|] == (Calls(s.done) + s.queue)[|s.done|] == s.queue[0];
    }
  }

  /** In every run: the calls accepted are those posted while there was a parent; and the i-th
      closure that runs handles the i-th of them, delivering it to the parent current at that
      moment or discarding it if there is none. */
  lemma {:induction false} DeliversToParentAtRunTime(first: Parent, run: seq<Step>)
    requires Possible(Initial(first), run)
    ensures Traced(first, run, Exec(Initial(first), run))
    decreases |run|
  {
    if run != [] {
      RunSplit(Initial(first), run);
      DeliversToParentAtRunTime(first, Front(run));
      TracedStep(first, run, Exec(Initial(first), Front(run)));
    }
  }

  ghost predicate Destroyed(s: State) {
    !s.io && s.parent.None?
  }

  /** After destruction nothing is accepted and nothing is delivered, in any continuation, also
      when the destruction came from inside a delivery. */
  lemma {:induction false} NothingAfterDestroy(s: State, run: seq<Step>)
    requires Destroyed(s) && Possible(s, run)
    ensures Destroyed(Exec(s, run)) && Exec(s, run).accepted == s.accepted && s.done <= Exec(s, run).done
    ensures forall i :: |s.done| <= i < |Exec(s, run).done| ==> Exec(s, run).done[i].Discarded?
    decreases |run|
  {
    if run != [] {
      NothingAfterDestroy(Apply(s, run[0]), run[1..]);
    }
  }

  ghost predicate KeepsParent(run: seq<Step>) {
    forall i :: 0 <= i < |run| && run[i].Reparent? ==> run[i].to.Some?
  }

  ghost predicate Ordered(s: State) {
    && DiscardsLast(s.done)
    && (s.io ==> s.parent.Some? && forall i :: 0 <= i < |s.done| ==> s.done[i].Delivered?)
    && (!s.io ==> s.parent.None?)
  }

  /** Unless someone reparents to null, deliveries come first and discards only after destruction. */
  lemma {:induction false} DeliveredThenDiscarded(s: State, run: seq<Step>)
    requires Ordered(s) && Possible(s, run) && KeepsParent(run)
    ensures Ordered(Exec(s, run))
    decreases |run|
  {
    if run != [] {
      assert KeepsParent(run[1..]);
      DeliveredThenDiscarded(Apply(s, run[0]), run[1..]);
    }
  }

  /** The two together, from the start. */
  lemma TransportConservation(parent: Parent, run: seq<Step>)
    requires Possible(Initial(parent), run)
    ensures var s := Exec(Initial(parent), run);
            s.accepted == Calls(s.done) + s.queue && (KeepsParent(run) ==> Ordered(s))
  {
    Conservation(Initial(parent), run);
    if KeepsParent(run) { DeliveredThenDiscarded(Initial(parent), run); }
  }
}
