/**
The cross-thread posting queue of `loop_posting_state`: many producers, a bounded queue
behind a mutex, budgeted drains on the loop thread, coalesced wakeups, and the
open -> draining -> closing -> closed protocol.

`Step` gives one transition per lock region or loop-thread action, so an arbitrary
`seq<Event>` is an arbitrary interleaving of producers, the loop thread and libuv. In
particular libuv clears its wakeup flag before it calls `drain()`, and a post may land between
that and the first lock region. An event that cannot happen in a state leaves it unchanged.
*/
module LoopPosting {

  type Work = nat
  type Continuation = nat

  datatype Phase = Open | Draining | Closing | Closed

  /** Position of the loop thread: `Entered` is before the first lock region of `drain()`, the rest between the two. */
  datatype Drain = Idle | Entered | Invoking(next: nat) | Cleared(hadWork: bool)

  /** Calls on the native async handle that took effect. */
  datatype Native = Send | Close

  datatype State = State(
    capacity: nat,
    budget: nat,
    phase: Phase,
    queue: seq<Work>,
    batch: seq<Work>,
    activeBatches: nat,
    closeWaiters: seq<Continuation>,
    // the loop thread
    drain: Drain,
    delivering: seq<Continuation>,
    // libuv: the coalesced wakeup flag and the calls made on the handle
    wakeup: bool,
    native: seq<Native>,
    // history; threw[i] is whether executed[i] threw, and reports are the failures handed to the handler
    accepted: seq<Work>,
    executed: seq<Work>,
    threw: seq<bool>,
    reports: seq<Work>,
    registered: seq<Continuation>,
    resumed: seq<Continuation>)

  datatype Event =
    | Post(work: Work, sendStatus: int)
    | RequestClose
    | AddCloseWaiter(waiter: Continuation)
    | Wakeup
    | TakeBatch
    | Invoke(threw: bool)
    | ClearBatch
    | EndDrain
    | CloseCallback
    | ResumeWaiter

  /** What user code and other threads can do at any moment, also from inside running work. */
  predicate Api(e: Event) {
    e.Post? || e.RequestClose? || e.AddCloseWaiter?
  }

  datatype PostStatus = Accepted | Cancelled | Again | SendFailed(code: int)

  function Init(capacity: nat, budget: nat): State {
    State(capacity, budget, Open, [], [], 0, [], Idle, [], false, [], [], [], [], [], [], [])
  }

  function Min(a: nat, b: nat): nat {
    if a < b then a else b
  }

  function StatusOfPost(s: State, sendStatus: int): PostStatus {
    if s.phase != Open then Cancelled
    else if |s.queue| == s.capacity then Again
    else if sendStatus < 0 then SendFailed(sendStatus)
    else Accepted
  }

  function Sealed(s: State): State {
    if s.phase == Open then s.(phase := Draining) else s
  }

  function BeginCloseIfDrained(s: State): State {
    if s.phase != Draining || s.queue != [] || s.activeBatches != 0 then s
    else s.(phase := Closing, native := s.native + [Close])
  }

  /** The first lock region of `drain()`. */
  function Take(s: State): State {
    if s.phase == Closing || s.phase == Closed then s.(drain := Idle)
    else
      var count := Min(s.budget, |s.queue|);
      s.(batch := s.queue[..count], queue := s.queue[count..],
         activeBatches := if count == 0 then s.activeBatches else s.activeBatches + 1,
         drain := Invoking(0))
  }

  /** The second lock region of `drain()`. */
  function Release(s: State): State
    requires s.drain.Cleared?
  {
    var left := if s.drain.hadWork && s.activeBatches > 0 then s.activeBatches - 1 else s.activeBatches;
    var t := s.(drain := Idle, activeBatches := left);
    var u := if t.queue == [] then t else t.(wakeup := true, native := t.native + [Send]);
    BeginCloseIfDrained(u)
  }

  predicate Enabled(s: State, e: Event) {
    match e
    case Post(_, _) => true
    case RequestClose => true
    case AddCloseWaiter(_) => true
    case Wakeup => s.wakeup && s.drain.Idle? && s.phase != Closed
    case TakeBatch => s.drain.Entered?
    case Invoke(_) => s.drain.Invoking? && s.drain.next < |s.batch|
    case ClearBatch => s.drain.Invoking? && s.drain.next >= |s.batch|
    case EndDrain => s.drain.Cleared?
    case CloseCallback => s.phase == Closing && s.drain.Idle?
    case ResumeWaiter => s.delivering != []
  }

  function InvokeNext(s: State, threw: bool): State
    requires Enabled(s, Invoke(threw))
  {
    var work := s.batch[s.drain.next];
    s.(executed := s.executed + [work], threw := s.threw + [threw],
       reports := if threw then s.reports + [work] else s.reports, drain := Invoking(s.drain.next + 1))
  }

  function Step(s: State, e: Event): State {
    if !Enabled(s, e) then s else
    match e
    case Post(w, sendStatus) =>
      if StatusOfPost(s, sendStatus) != Accepted then s
      else s.(queue := s.queue + [w], wakeup := true, native := s.native + [Send], accepted := s.accepted + [w])
    case RequestClose => BeginCloseIfDrained(Sealed(s))
    case AddCloseWaiter(c) =>
      if s.phase == Closed then s
      else s.(closeWaiters := s.closeWaiters + [c], registered := s.registered + [c])
    case Wakeup => s.(wakeup := false, drain := Entered)
    case TakeBatch => Take(s)
    case Invoke(threw) => InvokeNext(s, threw)
    case ClearBatch =>
      s.(drain := Cleared(s.batch != []), batch := [])
    case EndDrain => Release(s)
    case CloseCallback =>
      s.(phase := Closed, delivering := s.closeWaiters, closeWaiters := [])
    case ResumeWaiter =>
      s.(resumed := s.resumed + [s.delivering[0]], delivering := s.delivering[1..])
  }

  function Run(s: State, es: seq<Event>): State {
    if es == [] then s else Step(Run(s, es[..|es| - 1]), es[|es| - 1])
  }

  lemma RunOneMore(s: State, es: seq<Event>, e: Event)
    ensures Run(s, es + [e]) == Step(Run(s, es), e)
  {
    assert (es + [e])[..|es|] == es;
  }

  lemma RunPrefix(s: State, es: seq<Event>, i: nat)
    requires i < |es|
    ensures Run(s, es[..i + 1]) == Step(Run(s, es[..i]), es[i])
  {
    assert es[..i + 1][..i] == es[..i];
  }

  lemma {:induction false} RunConcat(s: State, a: seq<Event>, b: seq<Event>)
    ensures Run(s, a + b) == Run(Run(s, a), b)
    decreases |b|
  {
    if b == [] {
      assert a + b == a;
    } else {
      var front := b[..|b| - 1];
      assert (a + b)[..|a + b| - 1] == a + front;
      RunConcat(s, a, front);
    }
  }

  // ----- The invariant -----

  /** The part of the current batch that has not been invoked yet. */
  function BatchRest(s: State): seq<Work> {
    if s.drain.Invoking? && s.drain.next <= |s.batch| then s.batch[s.drain.next..] else []
  }

  predicate WorkShape(s: State) {
    && 0 < s.capacity && 0 < s.budget && |s.queue| <= s.capacity
    && s.accepted == s.executed + BatchRest(s) + s.queue
  }

  predicate HoldsWork(s: State) {
    (s.drain.Invoking? && s.batch != []) || (s.drain.Cleared? && s.drain.hadWork)
  }

  predicate DrainShape(s: State) {
    && (s.drain.Invoking? ==> s.drain.next <= |s.batch| <= s.budget)
    && (!s.drain.Invoking? ==> s.batch == [])
    && s.activeBatches == (if HoldsWork(s) then 1 else 0)
  }

  predicate NoLostWakeup(s: State) {
    (s.phase.Open? || s.phase.Draining?) && s.queue != [] ==> s.wakeup || !s.drain.Idle?
  }

  predicate PhaseShape(s: State) {
    && (s.phase.Draining? ==> s.queue != [] || s.activeBatches != 0)
    && (s.phase.Closing? || s.phase.Closed? ==> s.queue == [] && s.activeBatches == 0)
    && (s.phase.Closed? ==> s.drain.Idle?)
  }

  predicate ControlShape(s: State) {
    DrainShape(s) && NoLostWakeup(s) && PhaseShape(s)
  }

  /** Exactly one `Close`, at the very end, once closing has been reached; none before. */
  predicate NativeShape(s: State) {
    if s.phase.Open? || s.phase.Draining? then Close !in s.native
    else s.native != [] && s.native[|s.native| - 1] == Close && Close !in s.native[..|s.native| - 1]
  }

  predicate WaiterShape(s: State) {
    && s.registered == s.resumed + s.delivering + s.closeWaiters
    && (s.phase != Closed ==> s.resumed == [] && s.delivering == [])
    && (s.phase == Closed ==> s.closeWaiters == [])
  }

  /** The items that threw, in order. */
  function Thrown(executed: seq<Work>, threw: seq<bool>): seq<Work>
    requires |executed| == |threw|
  {
    if executed == [] then []
    else
      var n := |executed| - 1;
      Thrown(executed[..n], threw[..n]) + (if threw[n] then [executed[n]] else [])
  }

  predicate ReportShape(s: State) {
    |s.threw| == |s.executed| && s.reports == Thrown(s.executed, s.threw)
  }

  predicate Inv(s: State) {
    WorkShape(s) && ControlShape(s) && NativeShape(s) && WaiterShape(s) && ReportShape(s)
  }

  lemma StepKeepsInv(s: State, e: Event)
    requires Inv(s)
    ensures Inv(Step(s, e))
    ensures Step(s, e).capacity == s.capacity && Step(s, e).budget == s.budget
  {
    StepKeepsWork(s, e);
    StepKeepsControl(s, e);
    StepKeepsNative(s, e);
    StepKeepsWaiters(s, e);
    StepKeepsReports(s, e);
  }

  lemma StepKeepsWork(s: State, e: Event)
    requires WorkShape(s) && DrainShape(s)
    ensures WorkShape(Step(s, e))
    ensures Step(s, e).capacity == s.capacity && Step(s, e).budget == s.budget
  {
    if Enabled(s, e) {
      match e
      case Post(w, sendStatus) => PostKeepsWork(s, w, sendStatus);
      case TakeBatch => TakeKeepsWork(s);
      case Invoke(threw) => InvokeKeepsWork(s, threw);
      case ClearBatch => ClearKeepsWork(s);
      case EndDrain => ReleaseKeepsWork(s);
      case _ => OtherKeepsWork(s, e);
    }
  }

  lemma ClearKeepsWork(s: State)
    requires WorkShape(s) && Enabled(s, ClearBatch) && DrainShape(s)
    ensures WorkShape(Step(s, ClearBatch))
    ensures Step(s, ClearBatch).capacity == s.capacity && Step(s, ClearBatch).budget == s.budget
  {
    var t := s.(drain := Cleared(s.batch != []), batch := []);
    assert Step(s, ClearBatch) == t;
    assert s.drain.next == |s.batch|;
    assert BatchRest(s) == [];
    assert BatchRest(t) == [];
  }

  /** Events that touch neither the queue nor the batch. */
  lemma OtherKeepsWork(s: State, e: Event)
    requires WorkShape(s) && (e.RequestClose? || e.AddCloseWaiter? || e.Wakeup? || e.CloseCallback? || e.ResumeWaiter?)
    ensures WorkShape(Step(s, e))
    ensures Step(s, e).capacity == s.capacity && Step(s, e).budget == s.budget
  {
    assert BatchRest(Step(s, e)) == BatchRest(s);
  }

  lemma PostKeepsWork(s: State, w: Work, sendStatus: int)
    requires WorkShape(s)
    ensures WorkShape(Step(s, Post(w, sendStatus)))
  {
    assert s.executed + BatchRest(s) + (s.queue + [w]) == s.executed + BatchRest(s) + s.queue + [w];
  }

  lemma TakeKeepsWork(s: State)
    requires WorkShape(s) && s.drain.Entered?
    ensures WorkShape(Take(s)) && Take(s).capacity == s.capacity && Take(s).budget == s.budget
  {
    if s.phase != Closing && s.phase != Closed {
      var count := Min(s.budget, |s.queue|);
      assert s.queue == s.queue[..count] + s.queue[count..];
      assert BatchRest(Take(s)) == s.queue[..count];
      assert s.executed + [] + s.queue == s.executed + s.queue[..count] + s.queue[count..];
    }
  }

  lemma InvokeKeepsWork(s: State, threw: bool)
    requires WorkShape(s) && Enabled(s, Invoke(threw))
    ensures WorkShape(InvokeNext(s, threw))
    ensures InvokeNext(s, threw).capacity == s.capacity && InvokeNext(s, threw).budget == s.budget
  {
    var next := s.drain.next;
    MoveOne(s.executed, s.batch, next);
    assert BatchRest(InvokeNext(s, threw)) == s.batch[next + 1..];
  }

  lemma MoveOne(executed: seq<Work>, batch: seq<Work>, next: nat)
    requires next < |batch|
    ensures executed + batch[next..] == executed + [batch[next]] + batch[next + 1..]
  {
    assert batch[next..] == [batch[next]] + batch[next + 1..];
  }

  lemma ReleaseKeepsWork(s: State)
    requires WorkShape(s) && s.drain.Cleared?
    ensures WorkShape(Release(s)) && Release(s).capacity == s.capacity && Release(s).budget == s.budget
  {
    assert BatchRest(s) == [] == BatchRest(Release(s));
  }

  lemma StepKeepsControl(s: State, e: Event)
    requires ControlShape(s)
    ensures ControlShape(Step(s, e))
  {
    if Enabled(s, e) {
      match e
      case Post(_, _) =>
      case RequestClose =>
      case TakeBatch => TakeKeepsControl(s);
      case EndDrain => ReleaseKeepsControl(s);
      case _ =>
    }
  }

  lemma TakeKeepsControl(s: State)
    requires ControlShape(s) && s.drain.Entered?
    ensures ControlShape(Take(s))
  {
  }

  lemma ReleaseKeepsControl(s: State)
    requires ControlShape(s) && s.drain.Cleared?
    ensures ControlShape(Release(s))
  {
  }

  lemma StepKeepsNative(s: State, e: Event)
    requires NativeShape(s) && PhaseShape(s)
    ensures NativeShape(Step(s, e))
  {
    if Enabled(s, e) {
      match e
      case RequestClose => BeginKeepsNative(Sealed(s));
      case EndDrain => ReleaseKeepsNative(s);
      case _ =>
    }
  }

  lemma BeginKeepsNative(s: State)
    requires NativeShape(s)
    ensures NativeShape(BeginCloseIfDrained(s))
  {
    assert (s.native + [Close])[..|s.native|] == s.native;
  }

  lemma ReleaseKeepsNative(s: State)
    requires NativeShape(s) && PhaseShape(s) && s.drain.Cleared?
    ensures NativeShape(Release(s))
  {
    var t := s.(native := s.native + [Send]);
    assert s.queue != [] ==> NativeShape(t);
    assert (s.native + [Close])[..|s.native|] == s.native;
  }

  lemma StepKeepsWaiters(s: State, e: Event)
    requires WaiterShape(s)
    ensures WaiterShape(Step(s, e))
  {
    if Enabled(s, e) {
      match e
      case AddCloseWaiter(c) =>
        assert s.resumed + s.delivering + (s.closeWaiters + [c]) == s.resumed + s.delivering + s.closeWaiters + [c];
      case ResumeWaiter => DeliveryKeepsWaiters(s);
      case _ =>
    }
  }

  lemma DeliveryKeepsWaiters(s: State)
    requires WaiterShape(s) && s.delivering != []
    ensures WaiterShape(Step(s, ResumeWaiter))
  {
    assert s.delivering == [s.delivering[0]] + s.delivering[1..];
    assert s.resumed + ([s.delivering[0]] + s.delivering[1..]) == s.resumed + [s.delivering[0]] + s.delivering[1..];
  }

  lemma StepKeepsReports(s: State, e: Event)
    requires ReportShape(s)
    ensures ReportShape(Step(s, e))
  {
    if Enabled(s, e) && e.Invoke? {
      ThrownOneMore(s.executed, s.threw, s.batch[s.drain.next], e.threw);
    }
  }

  lemma ThrownOneMore(executed: seq<Work>, threw: seq<bool>, work: Work, failed: bool)
    requires |executed| == |threw|
    ensures Thrown(executed + [work], threw + [failed]) == Thrown(executed, threw) + (if failed then [work] else [])
  {
    assert (executed + [work])[..|executed|] == executed && (threw + [failed])[..|threw|] == threw;
  }

  lemma {:induction false} RunKeepsInv(s: State, es: seq<Event>)
    requires Inv(s)
    ensures Inv(Run(s, es))
    ensures Run(s, es).capacity == s.capacity && Run(s, es).budget == s.budget
  {
    if es != [] {
      RunKeepsInv(s, es[..|es| - 1]);
      StepKeepsInv(Run(s, es[..|es| - 1]), es[|es| - 1]);
    }
  }

  // ----- Safety over every run -----

  /** A freshly initialised endpoint after any interleaving of events. */
  function Reached(capacity: nat, budget: nat, es: seq<Event>): State {
    Run(Init(capacity, budget), es)
  }

  /**
  Nothing accepted is lost, duplicated or reordered: accepted work is the executed work,
  then the rest of the running batch, then the queue. Once native close has been issued
  every accepted item has been executed, and it stays so.
  */
  lemma {:induction false} AcceptedWorkIsConserved(capacity: nat, budget: nat, es: seq<Event>)
    requires 0 < capacity && 0 < budget
    ensures var s := Reached(capacity, budget, es);
            && s.accepted == s.executed + BatchRest(s) + s.queue
            && (s.phase.Closing? || s.phase.Closed? ==> s.executed == s.accepted)
            && |s.queue| <= capacity && |s.batch| <= budget
  {
    RunKeepsInv(Init(capacity, budget), es);
    var s := Reached(capacity, budget, es);
    if s.phase.Closing? || s.phase.Closed? {
      EverythingRan(s);
    }
  }

  lemma EverythingRan(s: State)
    requires WorkShape(s) && ControlShape(s) && (s.phase.Closing? || s.phase.Closed?)
    ensures s.executed == s.accepted
  {
    assert BatchRest(s) == [];
    assert s.executed + [] + [] == s.executed;
  }

  /** While work is queued and the endpoint is not closing, a drain is under way or one is certain to start. */
  lemma {:induction false} NoWakeupIsLost(capacity: nat, budget: nat, es: seq<Event>)
    requires 0 < capacity && 0 < budget
    ensures var s := Reached(capacity, budget, es);
            (s.phase.Open? || s.phase.Draining?) && s.queue != [] ==> !s.drain.Idle? || Enabled(s, Wakeup)
  {
    RunKeepsInv(Init(capacity, budget), es);
  }

  /** Only a close request ends the open phase, and it does so at once. */
  lemma {:induction false} OpenUntilRequested(capacity: nat, budget: nat, es: seq<Event>)
    ensures Reached(capacity, budget, es).phase.Open? <==> RequestClose !in es
  {
    if es != [] {
      var front, e := es[..|es| - 1], es[|es| - 1];
      OpenUntilRequested(capacity, budget, front);
      assert es == front + [e];
      StaysOpenIff(Reached(capacity, budget, front), e);
    }
  }

  lemma StaysOpenIff(s: State, e: Event)
    ensures Step(s, e).phase.Open? <==> s.phase.Open? && e != RequestClose
  {
    match e
    case TakeBatch => TakeMovesForward(s);
    case EndDrain =>
      if s.drain.Cleared? {
        ReleaseStaysOpenIff(s);
      }
    case _ =>
  }

  lemma ReleaseStaysOpenIff(s: State)
    requires s.drain.Cleared?
    ensures Release(s).phase.Open? <==> s.phase.Open?
  {
  }

  /**
  In every run, what a post is answered. It is cancelled if and only if a close was requested
  before; otherwise it is turned away for now if and only if as much accepted work as the
  capacity is neither executed nor in the running batch; otherwise `uv_async_send` decides. Only
  an accepted post changes anything, and it is then the last one accepted.
  */
  lemma {:induction false} PostIsAnsweredByTheHistory(capacity: nat, budget: nat, es: seq<Event>, work: Work,
                                                      sendStatus: int)
    requires 0 < capacity && 0 < budget
    ensures var s := Reached(capacity, budget, es);
            var t := Step(s, Post(work, sendStatus));
            var waiting := |s.accepted| - |s.executed| - |BatchRest(s)|;
            match StatusOfPost(s, sendStatus)
            case Cancelled => RequestClose in es && t == s
            case Again => RequestClose !in es && waiting == capacity && t == s
            case SendFailed(code) =>
              RequestClose !in es && waiting < capacity && sendStatus < 0 && code == sendStatus && t == s
            case Accepted =>
              && RequestClose !in es && waiting < capacity && sendStatus >= 0
              && t.accepted == s.accepted + [work] && t.queue == s.queue + [work] && t.wakeup
  {
    RunKeepsInv(Init(capacity, budget), es);
    OpenUntilRequested(capacity, budget, es);
    var s := Reached(capacity, budget, es);
    assert |s.executed + BatchRest(s) + s.queue| == |s.executed| + |BatchRest(s)| + |s.queue|;
  }

  /** A drain is under way whose batch was empty. */
  predicate EmptyDrain(s: State) {
    (s.drain.Invoking? && s.batch == []) || s.drain == Cleared(false)
  }

  /**
  In any run, a close requested on an open endpoint starts native close at once if and only if
  everything accepted has been executed and the batch it came with is destroyed. A drain that
  found nothing holds no active batch, so it never stands in the way.
  */
  lemma {:induction false} CloseIsImmediateIff(capacity: nat, budget: nat, es: seq<Event>)
    requires 0 < capacity && 0 < budget
    ensures var s := Reached(capacity, budget, es);
            var t := Step(s, RequestClose);
            && (s.phase.Open? ==> (t.phase.Closing? <==> s.executed == s.accepted && !HoldsWork(s)))
            && (EmptyDrain(s) ==> s.activeBatches == 0)
            && (s.phase.Open? && EmptyDrain(s) ==> (t.phase.Closing? <==> s.queue == []))
  {
    RunKeepsInv(Init(capacity, budget), es);
    AllExecutedIff(Reached(capacity, budget, es));
  }

  lemma AllExecutedIff(s: State)
    requires WorkShape(s) && ControlShape(s)
    ensures !HoldsWork(s) ==> (s.executed == s.accepted <==> s.queue == [])
  {
    if !HoldsWork(s) {
      assert BatchRest(s) == [];
      NothingAppended(s.executed, s.queue);
    }
  }

  lemma NothingAppended(executed: seq<Work>, queue: seq<Work>)
    ensures executed == executed + [] + queue <==> queue == []
  {
    assert |executed + [] + queue| == |executed| + |queue|;
  }

  /** Two items posted, the second between libuv's clearing of the flag and the first lock region. */
  const Overtaken: State :=
    Init(2, 2).(batch := [7, 8], activeBatches := 1, drain := Invoking(0), wakeup := true, native := [Send, Send],
                accepted := [7, 8])

  lemma PostOvertakesTheDrain()
    ensures Step(Step(Step(Step(Init(2, 2), Post(7, 0)), Wakeup), Post(8, 0)), TakeBatch) == Overtaken
  {
    EnteredByThePost();
    OvertakenBeforeTheLock();
  }

  /** The first post has woken the loop, which has not taken the lock yet. */
  const Woken: State := Init(2, 2).(queue := [7], drain := Entered, native := [Send], accepted := [7])

  lemma EnteredByThePost()
    ensures Step(Step(Init(2, 2), Post(7, 0)), Wakeup) == Woken
  {
    PostAppends(Init(2, 2), 7);
    assert [] + [7] == [7] && [] + [Send] == [Send];
  }

  lemma OvertakenBeforeTheLock()
    ensures Step(Step(Woken, Post(8, 0)), TakeBatch) == Overtaken
  {
    PostAppends(Woken, 8);
    var both := Woken.(queue := [7, 8], wakeup := true, native := [Send, Send], accepted := [7, 8]);
    assert [7] + [8] == [7, 8] && [Send] + [Send] == [Send, Send];
    assert Step(Woken, Post(8, 0)) == both;
    assert both.queue[..2] == [7, 8] && both.queue[2..] == [];
  }

  lemma PostAppends(s: State, work: Work)
    requires s.phase.Open? && |s.queue| < s.capacity
    ensures Step(s, Post(work, 0)) == s.(queue := s.queue + [work], wakeup := true, native := s.native + [Send],
                                         accepted := s.accepted + [work])
  {
  }

  /**
  A post may overtake the drain that its predecessor woke. Its own wakeup then starts a drain
  that finds nothing, holds no active batch, and does not delay a close.
  */
  lemma WakeupMayFindNoWork()
    ensures var late := Step(Step(Step(Step(Step(Step(Overtaken, Invoke(false)), Invoke(false)), ClearBatch),
                                            EndDrain), Wakeup), TakeBatch);
            && late.drain == Invoking(0) && late.batch == [] && late.activeBatches == 0
            && late.executed == [7, 8] && Step(late, RequestClose).phase == Closing
  {
    var first := Step(Overtaken, Invoke(false));
    assert first == Overtaken.(executed := [7], threw := [false], drain := Invoking(1));
    var second := Step(first, Invoke(false));
    assert second == Overtaken.(executed := [7, 8], threw := [false, false], drain := Invoking(2));
    var ended := Step(Step(second, ClearBatch), EndDrain);
    assert ended == second.(batch := [], activeBatches := 0, drain := Idle);
    assert Step(ended, Wakeup) == ended.(wakeup := false, drain := Entered);
  }

  /** Every failure of a posted item, and nothing else, is handed to the failure handler, once and in order. */
  lemma {:induction false} FailuresAreReportedOnce(capacity: nat, budget: nat, es: seq<Event>)
    requires 0 < capacity && 0 < budget
    ensures var s := Reached(capacity, budget, es);
            |s.threw| == |s.executed| && s.reports == Thrown(s.executed, s.threw)
  {
    RunKeepsInv(Init(capacity, budget), es);
  }

  function PhaseRank(p: Phase): nat {
    match p case Open => 0 case Draining => 1 case Closing => 2 case Closed => 3
  }

  lemma StepMovesForward(s: State, e: Event)
    requires PhaseShape(s)
    ensures PhaseRank(s.phase) <= PhaseRank(Step(s, e).phase)
    ensures PhaseRank(s.phase) >= 2 ==> Step(s, e).native == s.native && Step(s, e).accepted == s.accepted
    ensures s.accepted <= Step(s, e).accepted && s.executed <= Step(s, e).executed
  {
    if Enabled(s, e) {
      match e
      case TakeBatch => TakeMovesForward(s);
      case Invoke(_) =>
      case EndDrain => ReleaseMovesForward(s);
      case _ =>
    }
  }

  lemma TakeMovesForward(s: State)
    ensures Take(s).phase == s.phase && Take(s).native == s.native
    ensures Take(s).accepted == s.accepted && Take(s).executed == s.executed
  {
  }

  lemma ReleaseMovesForward(s: State)
    requires PhaseShape(s) && s.drain.Cleared?
    ensures PhaseRank(s.phase) <= PhaseRank(Release(s).phase)
    ensures PhaseRank(s.phase) >= 2 ==> Release(s).native == s.native
    ensures Release(s).accepted == s.accepted && Release(s).executed == s.executed
  {
  }

  /** What the first lock region of `drain()` leaves. */
  lemma TakeFields(s: State)
    requires Inv(s) && s.drain.Entered? && s.phase != Closing && s.phase != Closed
    ensures Inv(Step(s, TakeBatch)) && s.batch == []
    ensures var t, count := Step(s, TakeBatch), Min(s.budget, |s.queue|);
            && t.batch == s.queue[..count] && t.queue == s.queue[count..] && t.drain == Invoking(0)
            && t.activeBatches == (if count == 0 then s.activeBatches else s.activeBatches + 1)
            && t.capacity == s.capacity && t.budget == s.budget && t.phase == s.phase
            && t.closeWaiters == s.closeWaiters && t.executed == s.executed && t.reports == s.reports
  {
    StepKeepsInv(s, TakeBatch);
  }

  /** What the second lock region of `drain()` leaves. */
  lemma ReleaseFields(s: State)
    requires ControlShape(s) && s.drain.Cleared?
    ensures var t := Release(s);
            && t.drain.Idle? && t.activeBatches == 0 && t.queue == s.queue && t.batch == s.batch
            && t.phase == (if s.phase == Draining && s.queue == [] then Closing else s.phase)
            && t.native == s.native + (if s.queue != [] then [Send] else [])
                           + (if t.phase != s.phase then [Close] else [])
            && (s.queue != [] ==> t.wakeup)
            && t.executed == s.executed && t.reports == s.reports
  {
  }

  /**
  The phase never moves back, and after `uv_close` the native handle is never touched
  again: the record of native calls at any later time is the one at the moment of close.
  */
  lemma {:induction false} PhaseOnlyMovesForward(s: State, es: seq<Event>)
    requires Inv(s)
    ensures PhaseRank(s.phase) <= PhaseRank(Run(s, es).phase)
    ensures PhaseRank(s.phase) >= 2 ==> Run(s, es).native == s.native && Run(s, es).accepted == s.accepted
    ensures s.accepted <= Run(s, es).accepted && s.executed <= Run(s, es).executed
  {
    if es != [] {
      var front := es[..|es| - 1];
      PhaseOnlyMovesForward(s, front);
      RunKeepsInv(s, front);
      StepMovesForward(Run(s, front), es[|es| - 1]);
    }
  }

  function CloseCalls(native: seq<Native>): nat {
    if native == [] then 0
    else CloseCalls(native[..|native| - 1]) + (if native[|native| - 1] == Close then 1 else 0)
  }

  lemma {:induction false} NoCloseNoCalls(native: seq<Native>)
    requires Close !in native
    ensures CloseCalls(native) == 0
  {
    if native != [] {
      NoCloseNoCalls(native[..|native| - 1]);
    }
  }

  /**
  `uv_close` is called exactly once in a run that reaches closing and never in one that does
  not; it finds the queue empty and no batch active, and no `uv_async_send` comes after it.
  */
  lemma {:induction false} CloseIsIssuedOnce(capacity: nat, budget: nat, es: seq<Event>)
    requires 0 < capacity && 0 < budget
    ensures var s := Reached(capacity, budget, es);
            && CloseCalls(s.native) == (if s.phase.Closing? || s.phase.Closed? then 1 else 0)
            && (Close in s.native ==>
                  s.native[|s.native| - 1] == Close && s.queue == [] && s.activeBatches == 0)
  {
    RunKeepsInv(Init(capacity, budget), es);
    var s := Reached(capacity, budget, es);
    if s.phase.Open? || s.phase.Draining? {
      NoCloseNoCalls(s.native);
    } else {
      NoCloseNoCalls(s.native[..|s.native| - 1]);
    }
  }

  /** Close waiters are resumed in registration order, each once, and only after the endpoint is closed. */
  lemma {:induction false} WaitersResumeOnceAfterClosed(capacity: nat, budget: nat, es: seq<Event>)
    requires 0 < capacity && 0 < budget
    ensures var s := Reached(capacity, budget, es);
            && s.registered == s.resumed + s.delivering + s.closeWaiters
            && (s.resumed != [] ==> s.phase == Closed)
            && (s.phase == Closed && !Enabled(s, ResumeWaiter) ==> s.resumed == s.registered)
  {
    RunKeepsInv(Init(capacity, budget), es);
  }

  // ----- Progress after request_close -----

  function CeilDiv(n: nat, d: nat): (q: nat)
    requires 0 < d
  {
    if n == 0 then 0 else if n <= d then 1 else 1 + CeilDiv(n - d, d)
  }

  /** `CeilDiv` is the least number of batches of at most `d` items that hold `n` items. */
  lemma {:induction false} CeilDivIsCeiling(n: nat, d: nat)
    requires 0 < d
    ensures n <= CeilDiv(n, d) * d < n + d
  {
    if n > d {
      CeilDivIsCeiling(n - d, d);
    }
  }

  /** Drains that must still end before native close is issued, counting one that is under way. */
  function DrainsLeft(s: State): nat
    requires 0 < s.budget
  {
    if !s.phase.Draining? then 0
    else (if TookBatch(s) then 1 else 0) + CeilDiv(|s.queue|, s.budget)
  }

  /** A drain is past its first lock region. */
  predicate TookBatch(s: State) {
    s.drain.Invoking? || s.drain.Cleared?
  }

  predicate EndsDrain(s: State, e: Event) {
    e.EndDrain? && s.phase.Draining? && Enabled(s, e)
  }

  lemma DrainsLeftCountsDown(s: State, e: Event)
    requires ControlShape(s) && 0 < s.budget && PhaseRank(s.phase) >= 1
    ensures Step(s, e).budget == s.budget
    ensures DrainsLeft(Step(s, e)) == DrainsLeft(s) - (if EndsDrain(s, e) then 1 else 0)
    ensures s.phase.Draining? <==> DrainsLeft(s) > 0
  {
    if s.phase.Draining? && Enabled(s, e) {
      match e
      case TakeBatch => TakingABatchKeepsDrainsLeft(s);
      case EndDrain => EndingADrainCountsDown(s);
      case _ =>
    }
  }

  lemma TakingABatchKeepsDrainsLeft(s: State)
    requires ControlShape(s) && 0 < s.budget && s.phase.Draining? && Enabled(s, TakeBatch)
    ensures DrainsLeft(Step(s, TakeBatch)) == DrainsLeft(s)
  {
    assert |s.queue| > 0;
  }

  lemma EndingADrainCountsDown(s: State)
    requires ControlShape(s) && 0 < s.budget && s.phase.Draining? && Enabled(s, EndDrain)
    ensures DrainsLeft(Step(s, EndDrain)) == DrainsLeft(s) - 1
  {
  }

  function DrainsEnded(s: State, es: seq<Event>): nat {
    if es == [] then 0
    else
      var front := es[..|es| - 1];
      DrainsEnded(s, front) + (if EndsDrain(Run(s, front), es[|es| - 1]) then 1 else 0)
  }

  lemma {:induction false} DrainsLeftAlongRuns(s: State, es: seq<Event>)
    requires Inv(s) && PhaseRank(s.phase) >= 1
    ensures Run(s, es).budget == s.budget && Inv(Run(s, es)) && PhaseRank(Run(s, es).phase) >= 1
    ensures DrainsLeft(Run(s, es)) == DrainsLeft(s) - DrainsEnded(s, es)
  {
    if es != [] {
      var front := es[..|es| - 1];
      DrainsLeftAlongRuns(s, front);
      StepKeepsInv(Run(s, front), es[|es| - 1]);
      StepMovesForward(Run(s, front), es[|es| - 1]);
      DrainsLeftCountsDown(Run(s, front), es[|es| - 1]);
    }
  }

  /**
  From a draining endpoint, in every interleaving, native close is issued at the end of
  drain number ceil(queued / budget), plus one for a drain that has already taken its batch: no
  sooner, no later.
  */
  lemma {:induction false} ClosingTakesExactlyDrainsLeft(s: State, es: seq<Event>)
    requires Inv(s) && s.phase.Draining?
    ensures DrainsLeft(s) == (if TookBatch(s) then 1 else 0) + CeilDiv(|s.queue|, s.budget)
    ensures DrainsEnded(s, es) <= DrainsLeft(s)
    ensures Run(s, es).phase.Draining? <==> DrainsEnded(s, es) < DrainsLeft(s)
  {
    DrainsLeftAlongRuns(s, es);
    DrainsLeftCountsDown(Run(s, es), RequestClose);
  }

  /** What the loop thread does next when nobody else acts; `throws(k)` is whether the k-th item to run throws. */
  function LoopEvent(s: State, throws: nat -> bool): Event {
    match s.drain
    case Entered => TakeBatch
    case Invoking(next) => if next < |s.batch| then Invoke(throws(|s.executed|)) else ClearBatch
    case Cleared(_) => EndDrain
    case Idle => if s.phase.Closing? then CloseCallback else if s.phase.Closed? then ResumeWaiter else Wakeup
  }

  predicate Settled(s: State) {
    s.phase.Closed? && s.delivering == []
  }

  function DrainSteps(s: State): nat {
    match s.drain
    case Idle => 1
    case Entered => if s.phase.Closing? then 2 else 0
    case Invoking(next) => if next <= |s.batch| then |s.batch| - next + 3 else 3
    case Cleared(_) => 2
  }

  /** A bound on the loop-thread steps left until every waiter has been resumed. */
  function StepsLeft(s: State): nat {
    (if s.phase.Closed? then |s.delivering| else |s.closeWaiters| + 1) + 6 * |s.queue| + DrainSteps(s)
  }

  /** Once close is requested the loop thread always has a step to take, and every such step brings it nearer. */
  lemma LoopThreadMakesProgress(s: State, throws: nat -> bool)
    requires Inv(s) && PhaseRank(s.phase) >= 1 && !Settled(s)
    ensures Enabled(s, LoopEvent(s, throws))
    ensures StepsLeft(Step(s, LoopEvent(s, throws))) < StepsLeft(s)
  {
    match s.drain
    case Entered => TakeMakesProgress(s);
    case Invoking(_) => InvokeMakesProgress(s, throws);
    case Cleared(_) => ReleaseMakesProgress(s);
    case Idle => IdleMakesProgress(s, throws);
  }

  lemma TakeMakesProgress(s: State)
    requires ControlShape(s) && 0 < s.budget && s.drain.Entered? && PhaseRank(s.phase) >= 1
    ensures StepsLeft(Take(s)) < StepsLeft(s)
  {
    assert s.phase.Draining? ==> |s.queue| > 0;
  }

  lemma InvokeMakesProgress(s: State, throws: nat -> bool)
    requires ControlShape(s) && s.drain.Invoking?
    ensures Enabled(s, LoopEvent(s, throws))
    ensures StepsLeft(Step(s, LoopEvent(s, throws))) < StepsLeft(s)
  {
  }

  lemma IdleMakesProgress(s: State, throws: nat -> bool)
    requires ControlShape(s) && s.drain.Idle? && PhaseRank(s.phase) >= 1 && !Settled(s)
    ensures Enabled(s, LoopEvent(s, throws))
    ensures StepsLeft(Step(s, LoopEvent(s, throws))) < StepsLeft(s)
  {
  }

  lemma ReleaseMakesProgress(s: State)
    requires ControlShape(s) && s.drain.Cleared?
    ensures StepsLeft(Release(s)) < StepsLeft(s)
  {
  }

  /** The events of the loop thread alone, until it has settled. */
  function LoopEvents(s: State, throws: nat -> bool): seq<Event>
    requires Inv(s) && PhaseRank(s.phase) >= 1
    decreases StepsLeft(s)
  {
    if Settled(s) then []
    else
      var e := LoopEvent(s, throws);
      LoopThreadMakesProgress(s, throws);
      StepKeepsInv(s, e);
      StepMovesForward(s, e);
      [e] + LoopEvents(Step(s, e), throws)
  }

  /**
  From any reachable state in which close has been requested, and whichever items throw, the loop
  thread on its own reaches closed, having executed everything accepted and resumed every waiter.
  */
  lemma {:induction false} RequestedCloseSettles(s: State, throws: nat -> bool)
    requires Inv(s) && PhaseRank(s.phase) >= 1
    ensures var t := Run(s, LoopEvents(s, throws));
            t.phase == Closed && t.executed == t.accepted && t.resumed == t.registered
    decreases StepsLeft(s)
  {
    if Settled(s) {
      EverythingRan(s);
    } else {
      var e := LoopEvent(s, throws);
      LoopThreadMakesProgress(s, throws);
      StepKeepsInv(s, e);
      StepMovesForward(s, e);
      RequestedCloseSettles(Step(s, e), throws);
      RunConcat(s, [e], LoopEvents(Step(s, e), throws));
      assert Run(s, [e]) == Step(s, e) by { assert [e][..0] == []; }
    }
  }

  /** Calls from outside the drain only add to the queue. */
  lemma ApiKeepsTheDrain(s: State, e: Event)
    requires Api(e)
    ensures var t := Step(s, e);
            && t.batch == s.batch && t.drain == s.drain && t.executed == s.executed
            && t.threw == s.threw && t.reports == s.reports && s.queue <= t.queue
  {
    match e
    case Post(_, _) =>
    case RequestClose => RequestCloseFields(s);
    case AddCloseWaiter(_) =>
  }

  lemma RequestCloseFields(s: State)
    ensures var t := Step(s, RequestClose);
            t == BeginCloseIfDrained(Sealed(s)) && t.phase != Open && t.queue == s.queue
  {
  }

  /** The items of a batch that throw, in order. */
  function ThrownBy(batch: seq<Work>, throws: nat -> bool): seq<Work> {
    if batch == [] then []
    else
      var n := |batch| - 1;
      ThrownBy(batch[..n], throws) + (if throws(n) then [batch[n]] else [])
  }

  lemma ThrownByOneMore(batch: seq<Work>, throws: nat -> bool, work: Work)
    ensures ThrownBy(batch + [work], throws) == ThrownBy(batch, throws) + (if throws(|batch|) then [work] else [])
  {
    assert (batch + [work])[..|batch|] == batch;
  }

  lemma Associative(a: seq<Work>, b: seq<Work>, c: seq<Work>)
    ensures (a + b) + c == a + (b + c)
  {
  }

  lemma NextItem(batch: seq<Work>, i: nat, throws: nat -> bool, executed: seq<Work>)
    requires i < |batch|
    ensures executed + batch[..i] + [batch[i]] == executed + batch[..i + 1]
    ensures throws(i) ==> ThrownBy(batch[..i + 1], throws) == ThrownBy(batch[..i], throws) + [batch[i]]
    ensures !throws(i) ==> ThrownBy(batch[..i + 1], throws) == ThrownBy(batch[..i], throws)
  {
    assert batch[..i + 1] == batch[..i] + [batch[i]];
    ThrownByOneMore(batch[..i], throws, batch[i]);
  }

  /** A closed endpoint takes no more work, waiters or close requests. */
  lemma {:induction false} ClosedIgnoresCalls(s: State, actions: seq<Event>)
    requires s.phase == Closed
    requires forall e :: e in actions ==> Api(e)
    ensures Run(s, actions) == s
  {
    if actions != [] {
      var last := actions[|actions| - 1];
      assert last in actions;
      ClosedIgnoresCalls(s, actions[..|actions| - 1]);
    }
  }

  // ----- The state object -----

  datatype CloseAnswer = WrongLoop | Continues | Suspends

  /** `loop_posting_state`. The ghost `m` adds libuv, the loop thread's position and the history to its fields. */
  class LoopPostingState {
    const capacity: nat
    const drainBudget: nat
    var phase: Phase
    var queue: seq<Work>
    var batch: seq<Work>
    var closeWaiters: seq<Continuation>
    var activeBatches: nat
    ghost var m: State

    ghost predicate Fields()
      reads this
    {
      && m.capacity == capacity && m.budget == drainBudget
      && m.phase == phase && m.queue == queue && m.batch == batch
      && m.closeWaiters == closeWaiters && m.activeBatches == activeBatches
    }

    ghost predicate Valid()
      reads this
    {
      Fields() && Inv(m)
    }

    constructor (capacity: nat, drainBudget: nat)
      requires 0 < capacity && 0 < drainBudget
      ensures Valid() && m == Init(capacity, drainBudget)
    {
      this.capacity, this.drainBudget := capacity, drainBudget;
      phase, queue, batch, closeWaiters, activeBatches := Open, [], [], [], 0;
      m := Init(capacity, drainBudget);
    }

    /** Zero capacity or a zero budget is an invalid argument. */
    static method Create(capacity: nat, drainBudget: nat) returns (state: LoopPostingState?)
      ensures state == null <==> capacity == 0 || drainBudget == 0
      ensures state != null ==> fresh(state) && state.Valid() && state.m == Init(capacity, drainBudget)
    {
      if capacity == 0 || drainBudget == 0 {
        return null;
      }
      state := new LoopPostingState(capacity, drainBudget);
    }

    /** One producer's critical section; `sendStatus` is what `uv_async_send` would answer. */
    method Post(work: Work, sendStatus: int) returns (status: PostStatus)
      requires Valid()
      modifies this
      ensures Valid() && m == Step(old(m), Event.Post(work, sendStatus))
      ensures status == (if old(phase) != Open then Cancelled else if |old(queue)| == capacity then Again
                         else if sendStatus < 0 then SendFailed(sendStatus) else Accepted)
      ensures status.Accepted? ==> queue == old(queue) + [work] && m.wakeup && m.native == old(m.native) + [Send]
      ensures !status.Accepted? ==> m == old(m) && queue == old(queue)
    {
      StepKeepsInv(m, Event.Post(work, sendStatus));
      m := Step(m, Event.Post(work, sendStatus));
      if phase != Open {
        status := Cancelled;
      } else if |queue| == capacity {
        status := Again;
      } else {
        queue := queue + [work];
        if sendStatus < 0 {
          status := SendFailed(sendStatus);
          queue := queue[..|queue| - 1];
        } else {
          status := Accepted;
        }
      }
    }

    method RequestClose()
      requires Valid()
      modifies this
      ensures Valid() && m == Step(old(m), Event.RequestClose)
      ensures phase == (if old(phase) == Open && queue == [] && activeBatches == 0 then Closing
                        else if old(phase) == Open then Draining else old(phase))
      ensures queue == old(queue)
      ensures m.native == old(m.native) + (if phase == Closing && old(phase) == Open then [Close] else [])
    {
      StepKeepsInv(m, Event.RequestClose);
      RequestCloseFields(m);
      StartDraining();
      CloseIfDrained();
    }

    /** A close request stops admission at once. */
    method StartDraining()
      requires Fields()
      modifies this`phase, this`m
      ensures Fields() && m == Sealed(old(m))
    {
      if phase == Open {
        phase := Draining;
        m := m.(phase := Draining);
      }
    }

    /** `begin_close_if_drained_locked`, with its `uv_close`. */
    method CloseIfDrained()
      requires Fields()
      modifies this`phase, this`m
      ensures Fields() && m == BeginCloseIfDrained(old(m))
    {
      if phase != Draining || queue != [] || activeBatches != 0 {
        return;
      }
      phase := Closing;
      m := m.(phase := Closing, native := m.native + [Close]);
    }

    method AddCloseWaiter(continuation: Continuation) returns (added: bool)
      requires Valid()
      modifies this
      ensures Valid() && m == Step(old(m), Event.AddCloseWaiter(continuation))
      ensures added <==> old(phase) != Closed
      ensures added ==> closeWaiters == old(closeWaiters) + [continuation]
      ensures !added ==> m == old(m)
    {
      StepKeepsInv(m, Event.AddCloseWaiter(continuation));
      m := Step(m, Event.AddCloseWaiter(continuation));
      added := phase != Closed;
      if added {
        closeWaiters := closeWaiters + [continuation];
      }
    }

    /** `loop_posting::close()`: register first, then start the drain-and-close transition. */
    method AwaitClose(continuation: Continuation, sameLoop: bool) returns (answer: CloseAnswer)
      requires Valid()
      modifies this
      ensures Valid()
      ensures answer == (if !sameLoop then WrongLoop else if old(phase) == Closed then Continues else Suspends)
      ensures answer == Suspends ==>
                m == Step(Step(old(m), Event.AddCloseWaiter(continuation)), Event.RequestClose)
                && continuation in m.registered && PhaseRank(phase) >= 1
      ensures answer != Suspends ==> m == old(m)
    {
      if !sameLoop {
        return WrongLoop;
      }
      var added := AddCloseWaiter(continuation);
      if !added {
        return Continues;
      }
      assert continuation in m.registered;
      RequestClose();
      answer := Suspends;
    }

    /** A producer or running work makes one call through the public interface. */
    method Act(e: Event)
      requires Valid() && Api(e)
      modifies this
      ensures Valid() && m == Step(old(m), e)
      ensures batch == old(batch) && m.drain == old(m.drain) && m.executed == old(m.executed)
      ensures m.threw == old(m.threw) && m.reports == old(m.reports)
      ensures old(queue) <= queue
    {
      ApiKeepsTheDrain(m, e);
      match e
      case Post(work, sendStatus) => var _ := Post(work, sendStatus);
      case RequestClose => RequestClose();
      case AddCloseWaiter(waiter) => var _ := AddCloseWaiter(waiter);
    }

    /** Any number of such calls. */
    method Interleave(actions: seq<Event>)
      requires Valid()
      requires forall e :: e in actions ==> Api(e)
      modifies this
      ensures Valid() && m == Run(old(m), actions)
      ensures batch == old(batch) && m.drain == old(m.drain) && m.executed == old(m.executed)
      ensures m.threw == old(m.threw) && m.reports == old(m.reports)
      ensures old(queue) <= queue
    {
      for i := 0 to |actions|
        invariant Valid() && m == Run(old(m), actions[..i])
        invariant batch == old(batch) && m.drain == old(m.drain) && m.executed == old(m.executed)
        invariant m.threw == old(m.threw) && m.reports == old(m.reports)
        invariant old(queue) <= queue
      {
        RunPrefix(old(m), actions, i);
        Act(actions[i]);
      }
      assert actions[..|actions|] == actions;
    }

    /** The first lock region of `drain()`: move at most one budget of work into the batch. */
    method MoveBatch()
      requires Valid() && Enabled(m, TakeBatch) && phase != Closing && phase != Closed
      modifies this
      ensures Valid() && m == Step(old(m), TakeBatch)
      ensures batch == old(queue)[..Min(drainBudget, |old(queue)|)] && queue == old(queue)[|batch|..]
      ensures m.drain == Invoking(0) && m.executed == old(m.executed) && m.reports == old(m.reports)
    {
      TakeFields(m);
      var count := Min(drainBudget, |queue|);
      MoveItems(count);
      assert |batch| == count;
      if batch != [] {
        activeBatches := activeBatches + 1;
      }
      m := Step(m, TakeBatch);
    }

    /** Item by item, from the front of the queue to the end of the empty batch. */
    method MoveItems(count: nat)
      requires batch == [] && count <= |queue|
      modifies this`batch, this`queue
      ensures batch == old(queue)[..count] && queue == old(queue)[count..]
    {
      for i := 0 to count
        invariant batch == old(queue)[..i] && queue == old(queue)[i..]
      {
        batch := batch + [queue[0]];
        queue := queue[1..];
      }
    }

    /** The second lock region of `drain()`. */
    method ReleaseBatch(hadWork: bool)
      requires Valid() && m.drain == Cleared(hadWork)
      modifies this
      ensures Valid() && m == Step(old(m), EndDrain)
      ensures batch == old(batch) && queue == old(queue) && m.drain.Idle?
      ensures m.executed == old(m.executed) && m.reports == old(m.reports)
      ensures queue != [] ==> m.wakeup
      ensures m.native == old(m.native) + (if queue != [] then [Send] else [])
                          + (if phase != old(phase) then [Close] else [])
      ensures phase == (if old(phase) == Draining && queue == [] then Closing else old(phase))
      ensures activeBatches == 0
    {
      StepKeepsInv(m, EndDrain);
      ReleaseFields(m);
      if hadWork {
        activeBatches := activeBatches - 1;
      }
      m := m.(drain := Idle, activeBatches := activeBatches);
      if queue != [] {
        m := m.(wakeup := true, native := m.native + [Send]);
      }
      CloseIfDrained();
    }

    /**
    `drain()` as libuv calls it, with its flag already cleared. `before` are the calls that
    land before the first lock region, `others(i)` those made by producers and by the i-th
    work item while it runs, and `others` past the batch those made by captures as they are
    destroyed; `throws(i)` is whether the i-th item throws. The whole call is a run of the
    protocol. It executes, in order, exactly the first budget of what is queued when it takes
    the lock, hands the failures to the handler, and whatever was posted later stays queued
    behind the rest.
    */
    method Drain(before: seq<Event>, throws: nat -> bool, others: nat -> seq<Event>)
      returns (failures: seq<Work>, ghost trace: seq<Event>)
      requires Valid() && Enabled(m, Wakeup)
      requires forall e :: e in before ==> Api(e)
      requires forall i: nat, e :: e in others(i) ==> Api(e)
      modifies this
      ensures Valid() && m == Run(old(m), trace)
      ensures m.drain.Idle? && batch == []
      ensures ([Wakeup] + before) <= trace
      ensures var s := Run(old(m), [Wakeup] + before);
              if s.phase == Closing then m == s.(drain := Idle) && failures == []
              else
                var taken := s.queue[..Min(drainBudget, |s.queue|)];
                && m.executed == s.executed + taken && s.queue[|taken|..] <= queue
                && failures == ThrownBy(taken, throws) && m.reports == s.reports + failures
    {
      trace := EnterDrain(before);
      ghost var rest;
      failures, rest := DrainLocked(throws, others);
      RunConcat(old(m), trace, rest);
      trace := trace + rest;
    }

    /** `drain()` from its first lock region on. */
    method DrainLocked(throws: nat -> bool, others: nat -> seq<Event>)
      returns (failures: seq<Work>, ghost trace: seq<Event>)
      requires Valid() && m.drain.Entered?
      requires forall i: nat, e :: e in others(i) ==> Api(e)
      modifies this
      ensures Valid() && m == Run(old(m), trace)
      ensures m.drain.Idle? && batch == []
      ensures old(phase) == Closing ==> m == old(m).(drain := Idle) && failures == []
      ensures old(phase) != Closing ==>
                var taken := old(queue)[..Min(drainBudget, |old(queue)|)];
                && m.executed == old(m.executed) + taken && old(queue)[|taken|..] <= queue
                && failures == ThrownBy(taken, throws) && m.reports == old(m.reports) + failures
    {
      RunOneMore(m, [], TakeBatch);
      trace := [] + [TakeBatch];
      if phase == Closing || phase == Closed {
        StepKeepsInv(m, TakeBatch);
        m := Step(m, TakeBatch);
        return [], trace;
      }
      MoveBatch();
      ghost var rest;
      failures, rest := RunBatch(throws, others);
      RunConcat(old(m), trace, rest);
      trace := trace + rest;
    }

    /** libuv has cleared the flag; other threads may act before the lock is taken. */
    method EnterDrain(before: seq<Event>) returns (ghost trace: seq<Event>)
      requires Valid() && Enabled(m, Wakeup)
      requires forall e :: e in before ==> Api(e)
      modifies this
      ensures Valid() && m == Run(old(m), trace) && trace == [Wakeup] + before && m.drain.Entered?
    {
      RunOneMore(m, [], Wakeup);
      StepKeepsInv(m, Wakeup);
      trace := [] + [Wakeup];
      RunConcat(m, trace, before);
      m := Step(m, Wakeup);
      Interleave(before);
      trace := trace + before;
    }

    /** The rest of `drain()`. */
    method RunBatch(throws: nat -> bool, others: nat -> seq<Event>)
      returns (failures: seq<Work>, ghost trace: seq<Event>)
      requires Valid() && m.drain == Invoking(0)
      requires forall i: nat, e :: e in others(i) ==> Api(e)
      modifies this
      ensures Valid() && m == Run(old(m), trace)
      ensures m.drain.Idle? && batch == [] && old(queue) <= queue
      ensures m.executed == old(m.executed) + old(batch)
      ensures failures == ThrownBy(old(batch), throws) && m.reports == old(m.reports) + failures
    {
      var hadWork := batch != [];
      failures, trace := InvokeBatch(throws, others);
      ghost var finished := FinishBatch(hadWork, others(|batch|));
      RunConcat(old(m), trace, finished);
      trace := trace + finished;
    }

    /** The unlocked loop of `drain()`: a throwing item is reported and the loop goes on. */
    method InvokeBatch(throws: nat -> bool, others: nat -> seq<Event>)
      returns (failures: seq<Work>, ghost trace: seq<Event>)
      requires Valid() && m.drain == Invoking(0)
      requires forall i: nat, e :: e in others(i) ==> Api(e)
      modifies this
      ensures Valid() && m == Run(old(m), trace)
      ensures batch == old(batch) && m.drain == Invoking(|batch|) && old(queue) <= queue
      ensures m.executed == old(m.executed) + batch
      ensures failures == ThrownBy(batch, throws) && m.reports == old(m.reports) + failures
    {
      trace, failures := [], [];
      for i := 0 to |batch|
        invariant Valid() && m == Run(old(m), trace)
        invariant batch == old(batch) && m.drain == Invoking(i) && old(queue) <= queue
        invariant m.executed == old(m.executed) + batch[..i]
        invariant failures == ThrownBy(batch[..i], throws) && m.reports == old(m.reports) + failures
      {
        ghost var more := InvokeItem(i, throws(i), others(i));
        RunConcat(old(m), trace, more);
        trace := trace + more;
        NextItem(batch, i, throws, old(m.executed));
        if throws(i) {
          Associative(old(m.reports), failures, [batch[i]]);
          failures := failures + [batch[i]];
        }
      }
      assert batch[..|batch|] == batch;
    }

    /** One iteration over the batch: the item runs, and it and the producers make their calls. */
    method InvokeItem(i: nat, threw: bool, actions: seq<Event>) returns (ghost trace: seq<Event>)
      requires Valid() && m.drain == Invoking(i) && i < |batch|
      requires forall e :: e in actions ==> Api(e)
      modifies this
      ensures Valid() && trace == [Invoke(threw)] + actions && m == Run(old(m), trace)
      ensures batch == old(batch) && m.drain == Invoking(i + 1) && old(queue) <= queue
      ensures m.executed == old(m.executed) + [batch[i]]
      ensures threw ==> m.reports == old(m.reports) + [batch[i]]
      ensures !threw ==> m.reports == old(m.reports)
    {
      StepKeepsInv(m, Invoke(threw));
      RunOneMore(m, [], Invoke(threw));
      RunConcat(m, [] + [Invoke(threw)], actions);
      trace := [] + [Invoke(threw)] + actions;
      m := Step(m, Invoke(threw));
      Interleave(actions);
    }

    /** The end of `drain()`: the batch is destroyed unlocked, while still counted as active. */
    method FinishBatch(hadWork: bool, actions: seq<Event>) returns (ghost trace: seq<Event>)
      requires Valid() && Enabled(m, ClearBatch) && hadWork == (batch != [])
      requires forall e :: e in actions ==> Api(e)
      modifies this
      ensures Valid() && m == Run(old(m), trace)
      ensures m.drain.Idle? && batch == [] && old(queue) <= queue
      ensures m.executed == old(m.executed) && m.reports == old(m.reports)
    {
      RunOneMore(m, actions, ClearBatch);
      RunOneMore(m, actions + [ClearBatch], EndDrain);
      trace := actions + [ClearBatch] + [EndDrain];
      Interleave(actions);
      DestroyBatch(hadWork);
      ReleaseBatch(hadWork);
    }

    method DestroyBatch(hadWork: bool)
      requires Valid() && Enabled(m, ClearBatch) && hadWork == (batch != [])
      modifies this
      ensures Valid() && m == Step(old(m), ClearBatch)
      ensures batch == [] && queue == old(queue) && m.drain == Cleared(hadWork)
      ensures m.executed == old(m.executed) && m.reports == old(m.reports)
    {
      StepKeepsInv(m, ClearBatch);
      m := Step(m, ClearBatch);
      batch := [];
    }

    /**
    `on_close`: detach every waiter under the lock, then resume them one by one; `others(i)` is
    what the i-th one calls.
    */
    method OnClose(others: nat -> seq<Event>) returns (ghost trace: seq<Event>)
      requires Valid() && Enabled(m, CloseCallback)
      requires forall i: nat, e :: e in others(i) ==> Api(e)
      modifies this
      ensures Valid() && m == Run(old(m), trace)
      ensures phase == Closed && closeWaiters == [] && m.resumed == m.registered == old(m.registered)
    {
      RunOneMore(m, [], CloseCallback);
      trace := [] + [CloseCallback];
      var waiters := DetachWaiters();
      ghost var resuming := ResumeAll(waiters, others);
      RunConcat(old(m), trace, resuming);
      trace := trace + resuming;
    }

    method DetachWaiters() returns (waiters: seq<Continuation>)
      requires Valid() && Enabled(m, CloseCallback)
      modifies this
      ensures Valid() && m == Step(old(m), CloseCallback)
      ensures waiters == old(closeWaiters) == m.delivering && phase == Closed
    {
      StepKeepsInv(m, CloseCallback);
      m := Step(m, CloseCallback);
      waiters := closeWaiters;
      phase, closeWaiters := Closed, [];
    }

    method ResumeAll(waiters: seq<Continuation>, others: nat -> seq<Event>) returns (ghost trace: seq<Event>)
      requires Valid() && phase == Closed && m.delivering == waiters
      requires forall i: nat, e :: e in others(i) ==> Api(e)
      modifies this
      ensures Valid() && m == Run(old(m), trace)
      ensures phase == Closed && m.delivering == [] && m.registered == old(m.registered)
    {
      trace := [];
      for i := 0 to |waiters|
        invariant Valid() && m == Run(old(m), trace)
        invariant phase == Closed && m.delivering == waiters[i..] && m.registered == old(m.registered)
      {
        ghost var more := ResumeOne(waiters[i], others(i));
        RunConcat(old(m), trace, more);
        trace := trace + more;
      }
    }

    /** A resumed waiter may use the endpoint, which refuses everything now. */
    method ResumeOne(waiter: Continuation, actions: seq<Event>) returns (ghost trace: seq<Event>)
      requires Valid() && phase == Closed && m.delivering != [] && m.delivering[0] == waiter
      requires forall e :: e in actions ==> Api(e)
      modifies this
      ensures Valid() && m == Run(old(m), trace)
      ensures phase == Closed && m.delivering == old(m.delivering)[1..] && m.registered == old(m.registered)
    {
      RunOneMore(m, [], ResumeWaiter);
      StepKeepsInv(m, ResumeWaiter);
      trace := [] + [ResumeWaiter];
      RunConcat(m, trace, actions);
      m := Step(m, ResumeWaiter);
      ClosedIgnoresCalls(m, actions);
      Interleave(actions);
      trace := trace + actions;
    }
  }
}
