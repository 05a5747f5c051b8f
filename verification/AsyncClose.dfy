/**
The lifetime of an asynchronously closed owner: `async_close_state`, the close awaiter, and
the `request_close` / `release_owner` / `on_close` protocol that TCP and pipe connections,
listeners and filesystem event sources build on it.

`request_close()` claims the transition, quiesces the family's own callback source, and then
submits `uv_close`. Quiescing may run user code, so the two ends are separate events. An owner
can be released at any time, also from inside a close waiter that `on_close` is resuming.
*/
module AsyncClose {

  import opened Options

  type Continuation = nat

  datatype Phase = Open | Closing | Closed

  datatype State = State(
    phase: Phase,
    waiters: seq<Continuation>,
    callbackWaiter: Option<Continuation>,
    ownerReleased: bool,
    completionActive: bool,
    // request_close() is between claiming the transition and uv_close
    quiescing: bool,
    // uv_close has been submitted and its callback has not run
    closePending: bool,
    // continuations detached by complete() and not resumed yet
    delivering: seq<Continuation>,
    // history
    nativeCloses: nat,
    deletions: nat,
    registered: seq<Continuation>,
    resumed: seq<Continuation>)

  /** `busy` says that the family rejects closing over an active operation and one is active. */
  datatype Event =
    | AwaitClose(continuation: Continuation, busy: bool)
    | RequestClose(busy: bool)
    | ReleaseOwner
    | FailProvisional(continuation: Continuation)
    | SubmitClose
    | CloseCallback
    | ResumeNext
    | EndComplete

  const Init: State := State(Open, [], None, false, false, false, false, [], 0, 0, [], [])

  /** Owner calls need an owner, native callbacks a submission, and delivery an active `complete()`. */
  predicate Enabled(s: State, e: Event) {
    match e
    case AwaitClose(_, _) => !s.ownerReleased
    case RequestClose(_) => !s.ownerReleased
    case ReleaseOwner => !s.ownerReleased
    case FailProvisional(_) => !s.ownerReleased && s.phase == Open
    case SubmitClose => s.quiescing
    case CloseCallback => s.closePending
    case ResumeNext => s.completionActive && s.delivering != []
    case EndComplete => s.completionActive && s.delivering == []
  }

  function Begin(s: State): State {
    if s.phase == Open then s.(phase := Closing, quiescing := true) else s
  }

  function CanDestroyNow(s: State): bool {
    s.ownerReleased && s.phase == Closed && !s.completionActive
  }

  function Pending(s: State): seq<Continuation> {
    (if s.callbackWaiter.Some? then [s.callbackWaiter.value] else []) + s.waiters
  }

  function Step(s: State, e: Event): State {
    if !Enabled(s, e) then s else
    match e
    case AwaitClose(c, busy) =>
      if s.phase == Closed || busy then s
      else Begin(s.(waiters := s.waiters + [c], registered := s.registered + [c]))
    case RequestClose(busy) =>
      if s.phase != Closed && busy then s else Begin(s)
    case ReleaseOwner =>
      var t := s.(ownerReleased := true);
      if t.phase == Open then Begin(t)
      else if CanDestroyNow(t) then t.(deletions := t.deletions + 1)
      else t
    case FailProvisional(c) =>
      Begin(s.(ownerReleased := true)).(callbackWaiter := Some(c), registered := s.registered + [c])
    case SubmitClose =>
      s.(quiescing := false, closePending := true, nativeCloses := s.nativeCloses + 1)
    case CloseCallback =>
      s.(closePending := false, phase := Closed, completionActive := true,
         delivering := Pending(s), callbackWaiter := None, waiters := [])
    case ResumeNext =>
      s.(delivering := s.delivering[1..], resumed := s.resumed + [s.delivering[0]])
    case EndComplete =>
      s.(completionActive := false, deletions := if s.ownerReleased then s.deletions + 1 else s.deletions)
  }

  function Run(s: State, es: seq<Event>): State {
    if es == [] then s else Step(Run(s, es[..|es| - 1]), es[|es| - 1])
  }

  // ----- The invariant -----

  predicate Inv(s: State) {
    && (s.quiescing ==> s.phase == Closing)
    && (s.closePending <==> s.phase == Closing && !s.quiescing)
    && (s.completionActive ==> s.phase == Closed)
    && (s.delivering != [] ==> s.completionActive)
    && (s.phase != Closing ==> s.waiters == [] && s.callbackWaiter == None)
    && s.nativeCloses == (if s.phase == Open || s.quiescing then 0 else 1)
    && s.deletions == (if CanDestroyNow(s) then 1 else 0)
    && (s.ownerReleased ==> s.phase != Open)
    && s.registered == s.resumed + s.delivering + Pending(s)
    && (s.resumed != [] ==> s.phase == Closed)
  }

  lemma StepKeepsInv(s: State, e: Event)
    requires Inv(s)
    ensures Inv(Step(s, e))
  {
    if Enabled(s, e) {
      match e
      case ResumeNext => assert s.delivering == [s.delivering[0]] + s.delivering[1..];
      case AwaitClose(c, busy) => AwaitCloseKeepsInv(s, c, busy);
      case FailProvisional(c) => assert Pending(Step(s, e)) == [c];
      case _ =>
    }
  }

  lemma AwaitCloseKeepsInv(s: State, c: Continuation, busy: bool)
    requires Inv(s) && Enabled(s, AwaitClose(c, busy))
    ensures Inv(Step(s, AwaitClose(c, busy)))
  {
    if s.phase != Closed && !busy {
      assert Pending(Step(s, AwaitClose(c, busy))) == Pending(s) + [c];
    }
  }

  lemma {:induction false} RunKeepsInv(es: seq<Event>)
    ensures Inv(Run(Init, es))
  {
    if es != [] {
      RunKeepsInv(es[..|es| - 1]);
      StepKeepsInv(Run(Init, es[..|es| - 1]), es[|es| - 1]);
    }
  }

  // ----- Theorems over every run -----

  /** Native close is submitted at most once, and only by a close request or an owner release. */
  lemma {:induction false} NativeCloseHappensOnce(es: seq<Event>)
    ensures var s := Run(Init, es);
            && s.nativeCloses <= 1
            && (s.nativeCloses == 1 <==> s.closePending || s.phase == Closed)
            && !(s.closePending && s.quiescing)
  {
    RunKeepsInv(es);
  }

  /** Every close waiter is resumed exactly once, in order, and only after the native close callback. */
  lemma {:induction false} WaitersResumeOnceAfterClosed(es: seq<Event>)
    ensures var s := Run(Init, es);
            && s.registered == s.resumed + s.delivering + Pending(s)
            && (s.resumed != [] ==> s.phase == Closed && s.nativeCloses == 1)
            && (s.phase == Closed && !s.completionActive ==> s.resumed == s.registered)
  {
    RunKeepsInv(es);
  }

  /**
  The state is deleted at most once. When it is, the owner is gone, native close has completed
  and the last waiter has been resumed; and from then on nothing can touch it: no event that
  needs the state is possible any more.
  */
  lemma {:induction false} DeletedOnceAndNeverTouched(es: seq<Event>)
    ensures var s := Run(Init, es);
            && s.deletions <= 1
            && (s.deletions == 1 <==> s.ownerReleased && s.phase == Closed && !s.completionActive)
            && (s.deletions == 1 ==>
                  s.resumed == s.registered && s.nativeCloses == 1 && forall e :: !Enabled(s, e))
  {
    RunKeepsInv(es);
  }

  /** The event asks for the close and is not refused. */
  predicate Asks(s: State, e: Event) {
    && Enabled(s, e)
    && match e
       case AwaitClose(_, busy) => !busy
       case RequestClose(busy) => !busy
       case ReleaseOwner => true
       case FailProvisional(_) => true
       case _ => false
  }

  predicate Asked(es: seq<Event>) {
    es != [] && (Asked(es[..|es| - 1]) || Asks(Run(Init, es[..|es| - 1]), es[|es| - 1]))
  }

  predicate Released(es: seq<Event>) {
    es != [] &&
    var front, e := es[..|es| - 1], es[|es| - 1];
    Released(front) || ((e.ReleaseOwner? || e.FailProvisional?) && Enabled(Run(Init, front), e))
  }

  /** The continuations that suspended in a close, in order. */
  function Waited(es: seq<Event>): seq<Continuation> {
    if es == [] then []
    else
      var front, e := es[..|es| - 1], es[|es| - 1];
      var s := Run(Init, front);
      Waited(front) +
      (if Asks(s, e) && ((e.AwaitClose? && s.phase != Closed) || e.FailProvisional?) then [e.continuation] else [])
  }

  /**
  In every run the owner has left its open phase if and only if some close, request or release
  was not refused; it has lost its owner if and only if one was released; and exactly those
  who suspended are registered, in order.
  */
  lemma {:induction false} ClosesIffAsked(es: seq<Event>)
    ensures var s := Run(Init, es);
            && (s.phase != Open <==> Asked(es))
            && (s.ownerReleased <==> Released(es))
            && s.registered == Waited(es)
  {
    if es != [] {
      ClosesIffAsked(es[..|es| - 1]);
      RunKeepsInv(es[..|es| - 1]);
    }
  }

  /** What libuv and the library do next once no owner is left. */
  function NextEvent(s: State): Event {
    if s.quiescing then SubmitClose
    else if s.closePending then CloseCallback
    else if s.delivering != [] then ResumeNext
    else EndComplete
  }

  function StepsLeft(s: State): nat {
    if s.quiescing then |Pending(s)| + 4
    else if s.closePending then |Pending(s)| + 3
    else if s.completionActive then |s.delivering| + 1
    else 0
  }

  lemma NextEventMakesProgress(s: State)
    requires Inv(s) && s.ownerReleased && s.deletions == 0
    ensures Enabled(s, NextEvent(s))
    ensures var t := Step(s, NextEvent(s)); t.ownerReleased && StepsLeft(t) < StepsLeft(s)
  {
  }

  function RemainingEvents(s: State): seq<Event>
    requires Inv(s) && s.ownerReleased
    decreases StepsLeft(s)
  {
    if s.deletions == 1 then []
    else
      NextEventMakesProgress(s);
      StepKeepsInv(s, NextEvent(s));
      [NextEvent(s)] + RemainingEvents(Step(s, NextEvent(s)))
  }

  /** A released owner never leaks: libuv's own steps always carry the state to its deletion. */
  lemma {:induction false} ReleasedOwnerIsDeleted(s: State)
    requires Inv(s) && s.ownerReleased
    ensures var t := Run(s, RemainingEvents(s));
            t.deletions == 1 && t.resumed == t.registered == s.registered
    decreases StepsLeft(s)
  {
    if s.deletions == 0 {
      var e := NextEvent(s);
      NextEventMakesProgress(s);
      StepKeepsInv(s, e);
      ReleasedOwnerIsDeleted(Step(s, e));
      RunConcat(s, [e], RemainingEvents(Step(s, e)));
      assert Run(s, [e]) == Step(s, e) by { assert [e][..0] == []; }
    }
  }

  lemma RunOneMore(s: State, es: seq<Event>, e: Event)
    ensures Run(s, es + [e]) == Step(Run(s, es), e)
  {
    assert (es + [e])[..|es|] == es;
  }

  lemma {:induction false} RunConcat(s: State, a: seq<Event>, b: seq<Event>)
    ensures Run(s, a + b) == Run(Run(s, a), b)
    decreases |b|
  {
    if b == [] {
      assert a + b == a;
    } else {
      var front := b[..|b| - 1];
      assert (a + b)[..|a + b| - 1] == a + front;
      RunConcat(s, a, front);
    }
  }

  lemma SecondRequest(s: State, busy: bool)
    requires s.phase != Open
    ensures Step(s, RequestClose(busy)) == s
  {
  }

  // ----- The owner's state object -----

  datatype CloseAnswer = WrongLoop | AlreadyClosed | Busy | Suspends(initiated: bool)

  /** A call made through the owner by user code that `request_close` or `on_close` runs. */
  datatype Action = CloseAgain(continuation: Continuation, busy: bool) | Request(busy: bool) | Release

  /** `tcp_connection_state` and its siblings, with the fields of their `async_close_state`. */
  class OwnerState {
    var phase: Phase
    var waiters: seq<Continuation>
    var callbackWaiter: Option<Continuation>
    var ownerReleased: bool
    var completionActive: bool
    ghost var m: State

    ghost predicate Valid()
      reads this
    {
      && Inv(m)
      && m.phase == phase && m.waiters == waiters && m.callbackWaiter == callbackWaiter
      && m.ownerReleased == ownerReleased && m.completionActive == completionActive
    }

    constructor ()
      ensures Valid() && m == Init
    {
      phase, waiters, callbackWaiter, ownerReleased, completionActive := Open, [], None, false, false;
      m := Init;
    }

    /** `async_close_state::begin()`, the exactly-once claim. */
    method Begin() returns (claimed: bool)
      modifies this`phase
      ensures claimed <==> old(phase) == Open
      ensures phase == (if claimed then Closing else old(phase))
    {
      if phase != Open {
        return false;
      }
      phase := Closing;
      claimed := true;
    }

    /** `uv_close`, at the end of a `request_close()` that claimed the transition. */
    method Submit()
      requires Valid() && m.quiescing
      modifies this
      ensures Valid() && m == Step(old(m), SubmitClose)
      ensures m.closePending && m.nativeCloses == 1
      ensures ownerReleased == old(ownerReleased) && m.registered == old(m.registered)
    {
      StepKeepsInv(m, SubmitClose);
      m := Step(m, SubmitClose);
    }

    /** One call by user code, while the state is closing or closed. True when it deleted the state. */
    method Act(a: Action) returns (deleted: bool, ghost trace: seq<Event>)
      requires Valid() && phase != Open
      modifies this
      ensures Valid() && m == Run(old(m), trace)
      ensures phase == old(phase) && completionActive == old(completionActive)
      ensures m.delivering == old(m.delivering) && m.quiescing == old(m.quiescing)
      ensures old(m.registered) <= m.registered
      ensures old(ownerReleased) ==> m == old(m)
      ensures deleted <==> m.deletions > old(m.deletions)
    {
      trace, deleted := [], false;
      if ownerReleased {
        return;
      }
      match a
      case CloseAgain(c, busy) =>
        RunOneMore(m, [], AwaitClose(c, busy));
        trace := [] + [AwaitClose(c, busy)];
        AddWaiter(c, busy);
      case Request(busy) =>
        SecondRequest(m, busy);
        RunOneMore(m, [], RequestClose(busy));
        trace := [] + [RequestClose(busy)];
      case Release =>
        RunOneMore(m, [], ReleaseOwner);
        trace := [] + [ReleaseOwner];
        deleted := DropOwner();
    }

    /** A close awaited once closing has begun: only `add_waiter()` is left to do. */
    method AddWaiter(continuation: Continuation, busy: bool)
      requires Valid() && phase != Open && !ownerReleased
      modifies this
      ensures Valid() && m == Step(old(m), AwaitClose(continuation, busy))
      ensures phase == old(phase) && completionActive == old(completionActive)
      ensures waiters == (if phase == Closed || busy then old(waiters) else old(waiters) + [continuation])
      ensures m.deletions == old(m.deletions) && old(m.registered) <= m.registered
      ensures m.delivering == old(m.delivering) && m.quiescing == old(m.quiescing)
    {
      StepKeepsInv(m, AwaitClose(continuation, busy));
      m := Step(m, AwaitClose(continuation, busy));
      if phase != Closed && !busy {
        waiters := waiters + [continuation];
      }
    }

    /** `release_owner()` once closing has begun. */
    method DropOwner() returns (deleted: bool)
      requires Valid() && phase != Open && !ownerReleased
      modifies this
      ensures Valid() && m == Step(old(m), ReleaseOwner) && ownerReleased
      ensures phase == old(phase) && completionActive == old(completionActive) && m.registered == old(m.registered)
      ensures m.delivering == old(m.delivering) && m.quiescing == old(m.quiescing)
      ensures deleted <==> phase == Closed && !completionActive
      ensures m.deletions == (if deleted then 1 else 0) && old(m.deletions) == 0
    {
      StepKeepsInv(m, ReleaseOwner);
      m := Step(m, ReleaseOwner);
      ownerReleased := true;
      deleted := phase == Closed && !completionActive;
    }

    method Perform(actions: seq<Action>) returns (ghost trace: seq<Event>)
      requires Valid() && phase != Open && (phase == Closed ==> completionActive)
      modifies this
      ensures Valid() && m == Run(old(m), trace)
      ensures phase == old(phase) && completionActive == old(completionActive)
      ensures m.delivering == old(m.delivering) && m.quiescing == old(m.quiescing)
      ensures m.deletions == old(m.deletions) && old(m.registered) <= m.registered
      ensures old(ownerReleased) ==> ownerReleased && m.registered == old(m.registered)
    {
      trace := [];
      for i := 0 to |actions|
        invariant Valid() && m == Run(old(m), trace)
        invariant phase == old(phase) && completionActive == old(completionActive)
        invariant m.delivering == old(m.delivering) && m.quiescing == old(m.quiescing)
        invariant old(m.registered) <= m.registered
        invariant old(ownerReleased) ==> ownerReleased && m.registered == old(m.registered)
      {
        ghost var more;
        var deleted: bool;
        deleted, more := Act(actions[i]);
        RunConcat(old(m), trace, more);
        trace := trace + more;
      }
    }

    /**
    The owner's `request_close()`, with `during` the calls that quiescing the callback source
    makes happen. A busy owner that is not closed yet refuses.
    */
    method Close(busy: bool, during: seq<Action>) returns (initiated: bool, ghost trace: seq<Event>)
      requires Valid() && !ownerReleased
      modifies this
      ensures Valid() && m == Run(old(m), trace)
      ensures initiated <==> old(phase) == Open && !busy
      ensures !initiated ==> m == old(m)
      ensures initiated ==> phase == Closing && m.closePending && m.nativeCloses == 1
    {
      RunOneMore(m, [], RequestClose(busy));
      StepKeepsInv(m, RequestClose(busy));
      trace := [] + [RequestClose(busy)];
      m := Step(m, RequestClose(busy));
      if phase != Closed && busy {
        return false, trace;
      }
      initiated := Begin();
      if initiated {
        ghost var more := Quiesce(during);
        RunConcat(old(m), trace, more);
        trace := trace + more;
      }
    }

    method Quiesce(during: seq<Action>) returns (ghost trace: seq<Event>)
      requires Valid() && m.quiescing
      modifies this
      ensures Valid() && m == Run(old(m), trace)
      ensures m.closePending && m.nativeCloses == 1
      ensures phase == Closing && !m.quiescing && old(m.registered) <= m.registered
      ensures old(ownerReleased) ==> ownerReleased && m.registered == old(m.registered)
    {
      trace := Perform(during);
      RunOneMore(old(m), trace, SubmitClose);
      trace := trace + [SubmitClose];
      Submit();
    }

    /** The close awaiter, which checks its loop even for a closed owner: register first, then request close. */
    method AwaitClosed(continuation: Continuation, sameLoop: bool, busy: bool, during: seq<Action>)
      returns (answer: CloseAnswer, ghost trace: seq<Event>)
      requires Valid() && !ownerReleased
      modifies this
      ensures Valid() && m == Run(old(m), trace)
      ensures answer == (if !sameLoop then WrongLoop else if old(phase) == Closed then AlreadyClosed
                         else if busy then Busy else Suspends(old(phase) == Open))
      ensures answer.Suspends? ==> old(m.registered) + [continuation] <= m.registered && phase == Closing
      ensures !answer.Suspends? ==> m == old(m)
    {
      if !sameLoop {
        return WrongLoop, [];
      }
      if phase == Closed {
        return AlreadyClosed, [];
      }
      if busy {
        return Busy, [];
      }
      var initiated: bool;
      initiated, trace := JoinClose(continuation, during);
      answer := Suspends(initiated);
    }

    /** `add_waiter()` and then `request_close()`. */
    method JoinClose(continuation: Continuation, during: seq<Action>) returns (initiated: bool, ghost trace: seq<Event>)
      requires Valid() && !ownerReleased && phase != Closed
      modifies this
      ensures Valid() && m == Run(old(m), trace)
      ensures initiated <==> old(phase) == Open
      ensures old(m.registered) + [continuation] <= m.registered && phase == Closing
    {
      RunOneMore(m, [], AwaitClose(continuation, false));
      StepKeepsInv(m, AwaitClose(continuation, false));
      trace := [] + [AwaitClose(continuation, false)];
      m := Step(m, AwaitClose(continuation, false));
      waiters := waiters + [continuation];
      initiated := Begin();
      assert m.registered == old(m.registered) + [continuation];
      if initiated {
        ghost var more := Quiesce(during);
        RunConcat(old(m), trace, more);
        trace := trace + more;
      }
    }

    /** `release_owner()`: an open state starts closing; a closed one is deleted unless waiters are being resumed. */
    method ReleaseOwnership(during: seq<Action>) returns (deleted: bool, ghost trace: seq<Event>)
      requires Valid() && !ownerReleased
      modifies this
      ensures Valid() && m == Run(old(m), trace) && ownerReleased
      ensures deleted <==> old(phase) == Closed && !old(completionActive)
      ensures m.deletions == (if deleted then 1 else 0)
      ensures old(phase) == Open ==> m.closePending && m.nativeCloses == 1
    {
      RunOneMore(m, [], ReleaseOwner);
      trace := [] + [ReleaseOwner];
      if phase != Open {
        deleted := DropOwner();
        return;
      }
      deleted := false;
      StepKeepsInv(m, ReleaseOwner);
      m := Step(m, ReleaseOwner);
      ownerReleased := true;
      var initiated := Begin();
      ghost var more := Quiesce(during);
      RunConcat(old(m), trace, more);
      trace := trace + more;
    }

    /**
    A connect or accept failed on a provisional state nobody else can reach: it is released,
    and the failed operation resumes only from the close callback.
    */
    method CloseFromCallback(continuation: Continuation) returns (ghost trace: seq<Event>)
      requires Valid() && !ownerReleased && phase == Open
      modifies this
      ensures Valid() && m == Run(old(m), trace) && ownerReleased
      ensures m.closePending && callbackWaiter == Some(continuation) && m.resumed == old(m.resumed)
    {
      RunOneMore(m, [], FailProvisional(continuation));
      RunOneMore(m, [] + [FailProvisional(continuation)], SubmitClose);
      StepKeepsInv(m, FailProvisional(continuation));
      trace := [] + [FailProvisional(continuation)] + [SubmitClose];
      m := Step(m, FailProvisional(continuation));
      ownerReleased := true;
      callbackWaiter := Some(continuation);
      var initiated := Begin();
      Submit();
    }

    /**
    `on_close` and `async_close_state::complete()`: every continuation is detached before the
    first is resumed; `others(i)` is what the i-th one does, including releasing the owner.
    */
    method OnClose(others: nat -> seq<Action>) returns (deleted: bool, ghost trace: seq<Event>)
      requires Valid() && m.closePending
      modifies this
      ensures Valid() && m == Run(old(m), trace)
      ensures phase == Closed && !completionActive && m.resumed == m.registered
      ensures deleted <==> ownerReleased
      ensures m.deletions == (if deleted then 1 else 0)
    {
      RunOneMore(m, [], CloseCallback);
      StepKeepsInv(m, CloseCallback);
      trace := [] + [CloseCallback];
      m := Step(m, CloseCallback);
      phase, completionActive := Closed, true;
      var detached := (if callbackWaiter.Some? then [callbackWaiter.value] else []) + waiters;
      callbackWaiter, waiters := None, [];
      ghost var more := ResumeAll(detached, others);
      RunConcat(old(m), trace, more);
      RunOneMore(old(m), trace + more, EndComplete);
      trace := trace + more + [EndComplete];
      StepKeepsInv(m, EndComplete);
      m := Step(m, EndComplete);
      completionActive := false;
      deleted := ownerReleased;
    }

    method ResumeAll(detached: seq<Continuation>, others: nat -> seq<Action>) returns (ghost trace: seq<Event>)
      requires Valid() && completionActive && m.delivering == detached
      modifies this
      ensures Valid() && m == Run(old(m), trace)
      ensures phase == Closed && completionActive && m.delivering == [] && m.deletions == 0
    {
      trace := [];
      for i := 0 to |detached|
        invariant Valid() && m == Run(old(m), trace)
        invariant completionActive && m.delivering == detached[i..]
      {
        RunOneMore(old(m), trace, ResumeNext);
        trace := trace + [ResumeNext];
        StepKeepsInv(m, ResumeNext);
        m := Step(m, ResumeNext);
        ghost var more := Perform(others(i));
        RunConcat(old(m), trace, more);
        trace := trace + more;
      }
    }
  }
}
