/**
 The return path of an external TUN. Calls of other threads are queued; a call made on the I/O
 thread is dispatched inline while the recursive mutex is held. Calls are numbered in acceptance
 order, and the I/O thread's nested deliveries are kept on a stack.
 */
module ExternalTun {

  /** A delivery in progress on the I/O thread. */
  datatype Frame = Inline(id: nat) | Queued(id: nat)

  datatype State = State(
    attached: bool,        // parent and io are not null; false once destroyed
    queue: seq<nat>,
    stack: seq<Frame>,
    // history
    next: nat,             // calls accepted so far
    inlined: set<nat>,     // those made on the I/O thread
    delivered: seq<nat>,   // in delivery order
    discarded: seq<nat>    // closures that found no parent
  )

  datatype Step =
    | Post        // a call from another thread
    | CallInline  // a call from the I/O thread, at any depth
    | Return      // the innermost delivery returns
    | RunNext     // the idle I/O thread runs the next closure
    | Destroy     // the TUN client is destroyed on the I/O thread, at any depth

  const INITIAL: State := State(true, [], [], 0, {}, [], [])

  /** An inline call holds the mutex until it returns. */
  predicate MutexFree(s: State) {
    forall i :: 0 <= i < |s.stack| ==> !s.stack[i].Inline?
  }

  predicate Enabled(s: State, e: Step) {
    match e
    case Post => MutexFree(s)
    case CallInline => true
    case Return => s.stack != []
    case RunNext => s.stack == [] && s.queue != []
    case Destroy => s.attached
  }

  function Apply(s: State, e: Step): State
    requires Enabled(s, e)
  {
    match e
    case Post => if s.attached then s.(queue := s.queue + [s.next], next := s.next + 1) else s
    case CallInline =>
      if s.attached then
        s.(stack := s.stack + [Inline(s.next)], delivered := s.delivered + [s.next],
           inlined := s.inlined + {s.next}, next := s.next + 1)
      else s
    case Return => s.(stack := s.stack[..|s.stack| - 1])
    case RunNext =>
      var id, s' := s.queue[0], s.(queue := s.queue[1..]);
      if s.attached then s'.(stack := [Queued(id)], delivered := s.delivered + [id])
      else s'.(discarded := s.discarded + [id])
    case Destroy => s.(attached := false)
  }

  ghost predicate Possible(s: State, run: seq<Step>)
    decreases |run|
  {
    run == [] || (Enabled(s, run[0]) && Possible(Apply(s, run[0]), run[1..]))
  }

  ghost function Exec(s: State, run: seq<Step>): State
    requires Possible(s, run)
    decreases |run|
  {
    if run == [] then s else Exec(Apply(s, run[0]), run[1..])
  }

  // ---------------------------------------------------------------- order and conservation

  /** The delivered calls that other threads made. */
  function Posted(delivered: seq<nat>, inlined: set<nat>): seq<nat>
    decreases |delivered|
  {
    if delivered == [] then []
    else
      var rest := Posted(delivered[..|delivered| - 1], inlined);
      var last := delivered[|delivered| - 1];
      if last in inlined then rest else rest + [last]
  }

  lemma {:induction false} PostedIgnoresNewInline(delivered: seq<nat>, inlined: set<nat>, id: nat)
    requires forall i :: 0 <= i < |delivered| ==> delivered[i] != id
    ensures Posted(delivered, inlined + {id}) == Posted(delivered, inlined)
    decreases |delivered|
  {
    if delivered != [] {
      PostedIgnoresNewInline(delivered[..|delivered| - 1], inlined, id);
    }
  }

  lemma PostedAppend(delivered: seq<nat>, inlined: set<nat>, id: nat)
    ensures Posted(delivered + [id], inlined) == Posted(delivered, inlined) + (if id in inlined then [] else [id])
  {
    assert (delivered + [id])[..|delivered|] == delivered;
  }

  ghost predicate Ascending(ids: seq<nat>) {
    forall i, j :: 0 <= i < j < |ids| ==> ids[i] < ids[j]
  }

  /** The calls of other threads, wherever they are now. */
  function Others(s: State): seq<nat> {
    Posted(s.delivered, s.inlined) + s.discarded + s.queue
  }

  /** Other threads' calls keep acceptance order, and every call is theirs or an inline one. */
  ghost predicate OthersInv(s: State) {
    Ascending(Others(s)) && forall id: nat :: id in Others(s) <==> id < s.next && id !in s.inlined
  }

  /** Calls are delivered at most once, inline ones without exception. */
  ghost predicate DeliveredInv(s: State) {
    && (forall i :: 0 <= i < |s.delivered| ==> s.delivered[i] < s.next)
    && (forall i, j :: 0 <= i < j < |s.delivered| ==> s.delivered[i] != s.delivered[j])
    && (forall id :: id in s.inlined ==> id < s.next && id in s.delivered)
    && (s.attached ==> s.discarded == [])
  }

  ghost predicate Inv(s: State) {
    OthersInv(s) && DeliveredInv(s)
  }

  lemma InitialHolds()
    ensures Inv(INITIAL)
  {
    assert Posted([], {}) == [];
    assert Others(INITIAL) == [] && INITIAL.delivered == [] && INITIAL.inlined == {};
  }

  lemma OthersStep(s: State, e: Step)
    requires Inv(s) && Enabled(s, e)
    ensures Others(Apply(s, e)) == Others(s) + (if e.Post? && s.attached then [s.next] else [])
  {
    var s' := Apply(s, e);
    match e
    case CallInline =>
      if s.attached {
        PostedIgnoresNewInline(s.delivered, s.inlined, s.next);
        PostedAppend(s.delivered, s'.inlined, s.next);
      }
    case RunNext =>
      assert s.queue == [s.queue[0]] + s.queue[1..];
      assert s.queue[0] == Others(s)[|Others(s)| - |s.queue|];
      if s.attached { PostedAppend(s.delivered, s.inlined, s.queue[0]); }
    case _ =>
  }

  /** A delivered call is inlined or among the posted ones that were delivered. */
  lemma {:induction false} DeliveredIsKnown(delivered: seq<nat>, inlined: set<nat>, id: nat)
    ensures id in delivered && id !in inlined <==> id in Posted(delivered, inlined)
    decreases |delivered|
  {
    if delivered != [] {
      DeliveredIsKnown(delivered[..|delivered| - 1], inlined, id);
      assert delivered == delivered[..|delivered| - 1] + [delivered[|delivered| - 1]];
    }
  }

  /** The head of the queue has not been delivered yet. */
  lemma HeadIsNew(s: State)
    requires Inv(s) && s.queue != []
    ensures s.queue[0] !in s.delivered && s.queue[0] < s.next && s.queue[0] !in s.inlined
  {
    var head, o, n := s.queue[0], Others(s), |Posted(s.delivered, s.inlined)|;
    assert o[n + |s.discarded|] == head;
    DeliveredIsKnown(s.delivered, s.inlined, head);
    forall i | 0 <= i < n ensures Posted(s.delivered, s.inlined)[i] != head {
      assert o[i] == Posted(s.delivered, s.inlined)[i];
    }
  }

  lemma AppendedInv(others: seq<nat>, next: nat, inlined: set<nat>)
    requires Ascending(others) && forall id: nat :: id in others <==> id < next && id !in inlined
    ensures Ascending(others + [next])
    ensures next !in inlined ==> forall id: nat :: id in others + [next] <==> id < next + 1 && id !in inlined
  {
    assert forall i :: 0 <= i < |others| ==> others[i] in others;
  }

  lemma KeepsOthers(s: State, e: Step)
    requires Inv(s) && Enabled(s, e)
    ensures OthersInv(Apply(s, e))
  {
    OthersStep(s, e);
    if e.Post? && s.attached {
      AppendedInv(Others(s), s.next, s.inlined);
    } else {
      assert Others(s) + [] == Others(s);
    }
  }

  lemma KeepsDelivered(s: State, e: Step)
    requires DeliveredInv(s) && Enabled(s, e)
    requires e.RunNext? ==> s.queue[0] !in s.delivered && s.queue[0] < s.next
    ensures DeliveredInv(Apply(s, e))
  {
  }

  lemma Preserves(s: State, e: Step)
    requires Inv(s) && Enabled(s, e)
    ensures Inv(Apply(s, e))
  {
    if e.RunNext? { HeadIsNew(s); }
    KeepsOthers(s, e);
    KeepsDelivered(s, e);
  }

  lemma {:induction false} RunKeepsInv(s: State, run: seq<Step>)
    requires Inv(s) && Possible(s, run)
    ensures Inv(Exec(s, run)) && s.delivered <= Exec(s, run).delivered
    decreases |run|
  {
    if run != [] {
      Preserves(s, run[0]);
      RunKeepsInv(Apply(s, run[0]), run[1..]);
    }
  }

  /** In every run the calls of other threads are, in acceptance order, the delivered ones, then
      those discarded after destruction, then the queued ones; no call is delivered twice and
      every inline call was delivered. */
  lemma TunConservation(run: seq<Step>)
    requires Possible(INITIAL, run)
    ensures var s := Exec(INITIAL, run);
            && Ascending(Others(s))
            && (forall id: nat :: id in Others(s) <==> id < s.next && id !in s.inlined)
            && (forall id :: id in s.inlined ==> id in s.delivered)
            && (forall i, j :: 0 <= i < j < |s.delivered| ==> s.delivered[i] != s.delivered[j])
            && (s.attached ==> s.discarded == [])
  {
    InitialHolds();
    RunKeepsInv(INITIAL, run);
  }

  lemma InlineStep(s: State)
    requires s.attached
    ensures var s1 := Apply(s, CallInline);
            s1.next == s.next + 1 && s1.stack == s.stack + [Inline(s.next)] && s1.delivered == s.delivered + [s.next]
  {
  }

  /** After any run with the client attached, a call made on the I/O thread is accepted and delivered
      at once, and it keeps that place in every continuation. */
  lemma InlineAtOnce(run: seq<Step>, later: seq<Step>)
    requires Possible(INITIAL, run) && Exec(INITIAL, run).attached
    requires Possible(Apply(Exec(INITIAL, run), CallInline), later)
    ensures var s := Exec(INITIAL, run);
            var s1, z := Apply(s, CallInline), Exec(Apply(s, CallInline), later);
            && s1.next == s.next + 1 && s1.stack == s.stack + [Inline(s.next)] && s1.delivered == s.delivered + [s.next]
            && s1.delivered <= z.delivered
  {
    var s := Exec(INITIAL, run);
    InitialHolds();
    RunKeepsInv(INITIAL, run);
    Preserves(s, CallInline);
    RunKeepsInv(Apply(s, CallInline), later);
    InlineStep(s);
  }

  /** Everything that was still queued is delivered after it. */
  lemma InlineBeforeQueued(run: seq<Step>, later: seq<Step>, id: nat)
    requires Possible(INITIAL, run) && Exec(INITIAL, run).attached && id in Exec(INITIAL, run).queue
    requires Possible(Apply(Exec(INITIAL, run), CallInline), later)
    ensures var s, z := Exec(INITIAL, run), Exec(Apply(Exec(INITIAL, run), CallInline), later);
            && |s.delivered| < |z.delivered| && z.delivered[|s.delivered|] == s.next
            && (forall i :: 0 <= i < |z.delivered| && z.delivered[i] == id ==> |s.delivered| < i)
  {
    InlineAtOnce(run, later);
    InitialHolds();
    RunKeepsInv(INITIAL, run);
    var s := Exec(INITIAL, run);
    QueuedIsNew(s, id);
    DeliveredLater(s.delivered, s.next, Exec(Apply(s, CallInline), later).delivered, id);
  }

  lemma DeliveredLater(before: seq<nat>, call: nat, after: seq<nat>, id: nat)
    requires before + [call] <= after && id !in before && id != call
    ensures |before| < |after| && after[|before|] == call
    ensures forall i :: 0 <= i < |after| && after[i] == id ==> |before| < i
  {
    assert forall i :: 0 <= i < |before| ==> after[i] == before[i];
  }

  lemma QueuedIsNew(s: State, id: nat)
    requires Inv(s) && id in s.queue
    ensures id !in s.delivered && id < s.next
  {
    var o, posted := Others(s), Posted(s.delivered, s.inlined);
    var q :| 0 <= q < |s.queue| && s.queue[q] == id;
    assert o[|posted| + |s.discarded| + q] == id;
    DeliveredIsKnown(s.delivered, s.inlined, id);
    forall i | 0 <= i < |posted| ensures posted[i] != id {
      assert o[i] == posted[i];
    }
  }

  /** After destruction nothing is accepted or delivered, whatever deliveries are still on the
      I/O thread's stack. */
  lemma {:induction false} NothingAfterDestroy(s: State, run: seq<Step>)
    requires !s.attached && Possible(s, run)
    ensures Exec(s, run).delivered == s.delivered && Exec(s, run).next == s.next && !Exec(s, run).attached
    decreases |run|
  {
    if run != [] {
      NothingAfterDestroy(Apply(s, run[0]), run[1..]);
    }
  }

  // ---------------------------------------------------------------- what a run says by itself

  function Front(run: seq<Step>): seq<Step>
    requires run != []
  {
    run[..|run| - 1]
  }

  function Last(run: seq<Step>): Step
    requires run != []
  {
    run[|run| - 1]
  }

  /** No step of the run destroyed the client. */
  predicate Attached(run: seq<Step>) {
    forall i :: 0 <= i < |run| ==> !run[i].Destroy?
  }

  /** Calls made before the first destruction. */
  function Accepted(run: seq<Step>): nat {
    if run == [] then 0
    else Accepted(Front(run)) + if Attached(Front(run)) && (Last(run).Post? || Last(run).CallInline?) then 1 else 0
  }

  /** The numbers of the calls of other threads, in order. */
  function PostIds(run: seq<Step>): seq<nat> {
    if run == [] then []
    else PostIds(Front(run)) + if Attached(Front(run)) && Last(run).Post? then [Accepted(Front(run))] else []
  }

  /** How many closures the I/O thread ran. */
  function Ran(run: seq<Step>): nat {
    if run == [] then 0 else Ran(Front(run)) + if Last(run).RunNext? then 1 else 0
  }

  function Returned(run: seq<Step>): nat {
    if run == [] then 0 else Returned(Front(run)) + if Last(run).Return? then 1 else 0
  }

  /** The deliveries: an inline call at once, the n-th closure the n-th posted call, none after
      destruction. */
  function Deliveries(run: seq<Step>): seq<nat> {
    if run == [] then []
    else
      var before := Front(run);
      Deliveries(before)
      + if !Attached(before) then []
        else if Last(run).CallInline? then [Accepted(before)]
        else if Last(run).RunNext? && Ran(before) < |PostIds(before)| then [PostIds(before)[Ran(before)]]
        else []
  }

  lemma {:induction false} RunSplit(s: State, run: seq<Step>)
    requires Possible(s, run) && run != []
    ensures Possible(s, Front(run)) && Enabled(Exec(s, Front(run)), Last(run))
    ensures Exec(s, run) == Apply(Exec(s, Front(run)), Last(run))
    decreases |run|
  {
    if |run| == 1 {
      assert run[1..] == [] && Front(run) == [];
    } else {
      RunSplit(Apply(s, run[0]), run[1..]);
      assert Front(run[1..]) == Front(run)[1..];
    }
  }

  ghost predicate Traced(run: seq<Step>, s: State) {
    && (s.attached <==> Attached(run)) && s.next == Accepted(run) && s.delivered == Deliveries(run)
    && Ran(run) <= |PostIds(run)| && s.queue == PostIds(run)[Ran(run)..]
    && |s.stack| == |Deliveries(run)| - Returned(run)
  }

  lemma AttachedSnoc(run: seq<Step>)
    requires run != []
    ensures Attached(run) <==> Attached(Front(run)) && !Last(run).Destroy?
  {
    assert forall i :: 0 <= i < |run| - 1 ==> Front(run)[i] == run[i];
  }

  lemma TracedStep(run: seq<Step>, s: State)
    requires run != [] && Traced(Front(run), s) && Enabled(s, Last(run))
    ensures Traced(run, Apply(s, Last(run)))
  {
    AttachedSnoc(run);
    var ids, n := PostIds(Front(run)), Ran(Front(run));
    assert ids + [] == ids && Deliveries(Front(run)) + [] == Deliveries(Front(run));
    match Last(run)
    case RunNext =>
      assert s.queue[0] == ids[n] && s.queue[1..] == ids[n + 1..];
    case Post =>
      assert s.attached ==> (ids + [s.next])[n..] == ids[n..] + [s.next];
    case _ =>
  }

  /** In every run the client is attached until the first destruction, the calls accepted are those
      made before it, deliveries are the ones above, what is queued are the posted calls that have not
      run, and the deliveries in progress are those that have not returned. */
  lemma {:induction false} TunFollowsSteps(run: seq<Step>)
    requires Possible(INITIAL, run)
    ensures Traced(run, Exec(INITIAL, run))
    decreases |run|
  {
    if run != [] {
      RunSplit(INITIAL, run);
      TunFollowsSteps(Front(run));
      TracedStep(run, Exec(INITIAL, Front(run)));
    }
  }

  /** `connected()` reported inside start, before anything else, is delivered. */
  lemma FirstInlineDelivered()
    ensures Possible(INITIAL, [CallInline]) && Exec(INITIAL, [CallInline]).delivered == [0]
  {
    assert [CallInline][1..] == [];
    assert Exec(INITIAL, [CallInline]) == Apply(INITIAL, CallInline);
  }
}
