/**
The lifetime of a `process`: native close has to wait for the child to exit, so an owner that is
dropped early leaves the close to the exit callback, and a failed spawn closes without an owner.

Unlike the other owners, `release_owner()` deletes a closed state even while its close waiters
are being resumed, and `on_close` then deletes it again. The events go on past such a deletion,
as the code does; `deletions` counts them.
*/
module ProcessLifetime {

  import opened Options

  const UV_EBADF := -9
  const UV_EBUSY := -16
  const UV_ECANCELED := -125

  type Continuation = nat

  datatype Phase = Open | Closing | Closed

  /** A task that waited for the exit was resumed: by the exit, or cancelled by a stop. */
  datatype Waited = ByExit(continuation: Continuation) | Cancelled(continuation: Continuation)

  datatype State = State(
    spawned: bool,
    exited: bool,
    phase: Phase,
    closeWaiters: seq<Continuation>,
    waiter: Option<Continuation>,
    ownerReleased: bool,
    completionActive: bool,
    // uv_close has been submitted and its callback has not run
    closePending: bool,
    // continuations detached by complete() and not resumed yet
    delivering: seq<Continuation>,
    // history: closes submitted, deletions, and whether the owner was released during delivery
    nativeCloses: nat,
    deletions: nat,
    releasedInside: bool,
    registered: seq<Continuation>,
    resumed: seq<Continuation>,
    claimed: seq<Continuation>,
    answered: seq<Waited>)

  datatype Event =
    | Wait(continuation: Continuation, sameLoop: bool, stopRequested: bool, registers: bool)
    | CancelWait
    | AwaitClose(continuation: Continuation, sameLoop: bool)
    | RequestClose
    | ReleaseOwner
    | Exit
    | CloseCallback
    | ResumeNext
    | EndComplete

  /** A failed spawn leaves a state without an owner whose native close has been submitted. */
  function Init(spawned: bool): State {
    State(spawned, false, Open, [], None, !spawned, false, !spawned, [], if spawned then 0 else 1, 0, false,
          [], [], [], [])
  }

  /** Calls through the owner. */
  predicate Api(e: Event) {
    e.Wait? || e.AwaitClose? || e.RequestClose? || e.ReleaseOwner?
  }

  predicate Enabled(s: State, e: Event) {
    match e
    case CancelWait => s.waiter.Some?
    case Exit => s.spawned && !s.exited
    case CloseCallback => s.closePending
    case ResumeNext => s.completionActive && s.delivering != []
    case EndComplete => s.completionActive && s.delivering == []
    case _ => !s.ownerReleased
  }

  datatype WaitAnswer = WrongLoop | Rejected(status: int) | Exited | Suspends

  function AnswerToWait(s: State, sameLoop: bool, stopRequested: bool, registers: bool): WaitAnswer {
    if s.phase != Open then Rejected(UV_EBADF)
    else if !sameLoop then WaitAnswer.WrongLoop
    else if stopRequested then Rejected(UV_ECANCELED)
    else if s.exited then Exited
    else if s.waiter.Some? then Rejected(UV_EBUSY)
    else if !registers then Rejected(UV_ECANCELED)
    else Suspends
  }

  /** `request_close()`: refused before the exit, claimed once after it. */
  function Begin(s: State): State {
    if !s.exited || s.phase != Open then s
    else s.(phase := Closing, closePending := true, nativeCloses := s.nativeCloses + 1)
  }

  function Answer(s: State, exited: bool): State {
    if s.waiter == None then s
    else
      var c := s.waiter.value;
      s.(waiter := None, answered := s.answered + [if exited then ByExit(c) else Cancelled(c)])
  }

  function Release(s: State): State {
    var t := s.(ownerReleased := true, releasedInside := s.completionActive);
    if !s.exited then t
    else if s.phase == Open then Begin(t)
    else if s.phase == Closed then t.(deletions := t.deletions + 1)
    else t
  }

  function Step(s: State, e: Event): State {
    if !Enabled(s, e) then s else
    match e
    case Wait(c, sameLoop, stopRequested, registers) =>
      if AnswerToWait(s, sameLoop, stopRequested, registers) != Suspends then s
      else s.(waiter := Some(c), claimed := s.claimed + [c])
    case CancelWait => Answer(s, false)
    case AwaitClose(c, sameLoop) =>
      if !sameLoop || s.phase == Closed || !s.exited then s
      else Begin(s.(closeWaiters := s.closeWaiters + [c], registered := s.registered + [c]))
    case RequestClose => Begin(s)
    case ReleaseOwner => Release(s)
    case Exit =>
      var t := s.(exited := true);
      Answer(if s.ownerReleased then Begin(t) else t, true)
    case CloseCallback =>
      s.(closePending := false, phase := Closed, completionActive := true,
         delivering := s.closeWaiters, closeWaiters := [])
    case ResumeNext =>
      s.(delivering := s.delivering[1..], resumed := s.resumed + [s.delivering[0]])
    case EndComplete =>
      s.(completionActive := false, deletions := if s.ownerReleased then s.deletions + 1 else s.deletions)
  }

  function Run(s: State, es: seq<Event>): State {
    if es == [] then s else Step(Run(s, es[..|es| - 1]), es[|es| - 1])
  }

  // ----- The invariant -----

  function Tasks(ws: seq<Waited>): seq<Continuation> {
    seq(|ws|, i requires 0 <= i < |ws| => ws[i].continuation)
  }

  lemma TasksOneMore(ws: seq<Waited>, w: Waited)
    ensures Tasks(ws + [w]) == Tasks(ws) + [w.continuation]
  {
  }

  predicate Over(s: State) {
    s.ownerReleased && s.phase == Closed && !s.completionActive
  }

  predicate ClosingMatches(s: State) {
    && (s.closePending <==> s.phase == Closing || (!s.spawned && s.phase == Open))
    && (!s.spawned ==> s.ownerReleased && !s.exited && s.phase != Closing)
    && (s.spawned && s.phase != Open ==> s.exited)
    && (s.exited && s.ownerReleased ==> s.phase != Open)
    && s.nativeCloses == (if s.spawned && s.phase == Open then 0 else 1)
    && (s.completionActive ==> s.phase == Closed)
  }

  predicate WaitersMatch(s: State) {
    && (s.delivering != [] ==> s.completionActive)
    && (s.closeWaiters != [] ==> s.phase == Closing)
    && s.registered == s.resumed + s.delivering + s.closeWaiters
    && (s.resumed != [] ==> s.phase == Closed)
    && s.claimed == Tasks(s.answered) + (if s.waiter.Some? then [s.waiter.value] else [])
    && (s.waiter.Some? ==> s.spawned && !s.exited)
    && (!s.spawned ==> s.registered == [] && s.claimed == [])
  }

  predicate DeletionsMatch(s: State) {
    && s.deletions == (if s.releasedInside then 1 else 0) + (if Over(s) then 1 else 0)
    && (s.releasedInside ==> s.ownerReleased && s.phase == Closed)
  }

  predicate Inv(s: State) {
    ClosingMatches(s) && WaitersMatch(s) && DeletionsMatch(s)
  }

  lemma StepKeepsInv(s: State, e: Event)
    requires Inv(s)
    ensures Inv(Step(s, e))
  {
    if Enabled(s, e) {
      match e
      case ResumeNext => ResumeKeepsInv(s);
      case Wait(_, _, _, _) => WaitKeepsInv(s, e);
      case AwaitClose(c, sameLoop) => AwaitCloseKeepsInv(s, c, sameLoop);
      case CancelWait => TasksOneMore(s.answered, Cancelled(s.waiter.value));
      case Exit => ExitKeepsInv(s);
      case ReleaseOwner => ReleaseKeepsInv(s);
      case _ =>
    }
  }

  lemma ResumeKeepsInv(s: State)
    requires Inv(s) && Enabled(s, ResumeNext)
    ensures Inv(Step(s, ResumeNext))
  {
    assert s.delivering == [s.delivering[0]] + s.delivering[1..];
  }

  lemma WaitKeepsInv(s: State, e: Event)
    requires Inv(s) && e.Wait? && Enabled(s, e)
    ensures Inv(Step(s, e))
  {
  }

  lemma AwaitCloseKeepsInv(s: State, c: Continuation, sameLoop: bool)
    requires Inv(s) && Enabled(s, AwaitClose(c, sameLoop))
    ensures Inv(Step(s, AwaitClose(c, sameLoop)))
  {
    assert s.resumed + s.delivering + (s.closeWaiters + [c]) == s.registered + [c];
  }

  lemma ExitKeepsInv(s: State)
    requires Inv(s) && Enabled(s, Exit)
    ensures Inv(Step(s, Exit))
  {
    if s.waiter.Some? {
      TasksOneMore(s.answered, ByExit(s.waiter.value));
    }
  }

  lemma ReleaseKeepsInv(s: State)
    requires Inv(s) && Enabled(s, ReleaseOwner)
    ensures Inv(Step(s, ReleaseOwner))
  {
  }

  lemma {:induction false} RunKeepsInv(s: State, es: seq<Event>)
    requires Inv(s)
    ensures Inv(Run(s, es))
  {
    if es != [] {
      RunKeepsInv(s, es[..|es| - 1]);
      StepKeepsInv(Run(s, es[..|es| - 1]), es[|es| - 1]);
    }
  }

  // ----- Theorems over every run -----

  /** Native close never precedes the exit of a spawned child, and is submitted at most once. */
  lemma {:induction false} NativeCloseWaitsForExit(spawned: bool, es: seq<Event>)
    ensures var s := Run(Init(spawned), es);
            && s.nativeCloses <= 1
            && (spawned && s.nativeCloses == 1 ==> s.exited)
            && (s.exited && s.ownerReleased ==> s.nativeCloses == 1)
  {
    RunKeepsInv(Init(spawned), es);
    SpawnedIsFixed(Init(spawned), es);
  }

  lemma {:induction false} SpawnedIsFixed(s: State, es: seq<Event>)
    ensures Run(s, es).spawned == s.spawned
  {
    if es != [] {
      SpawnedIsFixed(s, es[..|es| - 1]);
      StepHistory(Run(s, es[..|es| - 1]), es[|es| - 1]);
    }
  }

  lemma StepHistory(s: State, e: Event)
    ensures var t := Step(s, e);
            && t.spawned == s.spawned
            && t.ownerReleased == (s.ownerReleased || e == ReleaseOwner)
            && t.releasedInside ==
               (if e == ReleaseOwner && !s.ownerReleased then s.completionActive else s.releasedInside)
  {
    if Api(e) {
      OwnerCallHistory(s, e);
    }
  }

  lemma OwnerCallHistory(s: State, e: Event)
    requires Api(e)
    ensures var t := Step(s, e);
            && t.spawned == s.spawned
            && t.ownerReleased == (s.ownerReleased || e == ReleaseOwner)
            && t.releasedInside ==
               (if e == ReleaseOwner && !s.ownerReleased then s.completionActive else s.releasedInside)
  {
  }

  /** The event asks for the close of a spawned child, or lets an earlier release take effect. */
  predicate Asks(s: State, e: Event) {
    && Enabled(s, e)
    && match e
       case AwaitClose(_, sameLoop) => sameLoop && s.exited
       case RequestClose => s.exited
       case ReleaseOwner => s.exited
       case Exit => s.ownerReleased
       case _ => false
  }

  predicate Asked(es: seq<Event>) {
    es != [] && (Asked(es[..|es| - 1]) || Asks(Run(Init(true), es[..|es| - 1]), es[|es| - 1]))
  }

  /**
  In every run the native close of a spawned child has been submitted if and only if somebody
  asked for it after the exit, or the exit came after the owner was gone.
  */
  lemma {:induction false} ClosesIffAskedAfterExit(es: seq<Event>)
    ensures var s := Run(Init(true), es);
            (s.phase != Open <==> Asked(es)) && (s.nativeCloses == 1 <==> Asked(es))
  {
    RunKeepsInv(Init(true), es);
    SpawnedIsFixed(Init(true), es);
    if es != [] {
      var front := es[..|es| - 1];
      ClosesIffAskedAfterExit(front);
      RunKeepsInv(Init(true), front);
      SpawnedIsFixed(Init(true), front);
      LeavesOpenIff(Run(Init(true), front), es[|es| - 1]);
    }
  }

  lemma LeavesOpenIff(s: State, e: Event)
    requires ClosingMatches(s) && s.spawned
    ensures Step(s, e).phase != Open <==> s.phase != Open || Asks(s, e)
  {
  }

  /**
  Every waiter, for the exit or for the close, is resumed once and in order; none is left over.
  The one that waits for the exit is resumed by the exit, or else cancelled by its own stop.
  */
  lemma {:induction false} WaitersResumeOnce(spawned: bool, es: seq<Event>)
    ensures var s := Run(Init(spawned), es);
            && s.registered == s.resumed + s.delivering + s.closeWaiters
            && (s.resumed != [] ==> s.phase == Closed)
            && (s.phase == Closed && !s.completionActive ==> s.resumed == s.registered)
            && s.claimed == Tasks(s.answered) + (if s.waiter.Some? then [s.waiter.value] else [])
            && (s.exited ==> Tasks(s.answered) == s.claimed)
            && (s.waiter.Some? ==>
                  && Step(s, Exit).answered == s.answered + [ByExit(s.waiter.value)]
                  && Step(s, CancelWait).answered == s.answered + [Cancelled(s.waiter.value)])
  {
    RunKeepsInv(Init(spawned), es);
  }

  /** At some point of the run the owner was released while close waiters were being resumed. */
  predicate ReleasedDuringDelivery(s: State, es: seq<Event>) {
    es != [] &&
    var front, before := es[..|es| - 1], Run(s, es[..|es| - 1]);
    || ReleasedDuringDelivery(s, front)
    || (es[|es| - 1] == ReleaseOwner && !before.ownerReleased && before.completionActive)
  }

  lemma {:induction false} ReleasedInsideMeans(s: State, es: seq<Event>)
    requires !s.releasedInside && !s.ownerReleased
    ensures Run(s, es).releasedInside <==> ReleasedDuringDelivery(s, es)
    ensures Run(s, es).releasedInside ==> Run(s, es).ownerReleased
  {
    if es != [] {
      ReleasedInsideMeans(s, es[..|es| - 1]);
      StepHistory(Run(s, es[..|es| - 1]), es[|es| - 1]);
    }
  }

  /**
  A spawned process whose owner is gone and whose close has completed has been deleted exactly
  once if and only if the owner was not released while close waiters were being resumed. Then
  the deletion is the last thing that happens to the state. Otherwise it has been deleted twice.
  */
  lemma {:induction false} DeletedOnceIffNotReleasedDuringDelivery(es: seq<Event>)
    ensures var s := Run(Init(true), es);
            && (Over(s) ==> (s.deletions == 1 <==> !ReleasedDuringDelivery(Init(true), es)))
            && (Over(s) && ReleasedDuringDelivery(Init(true), es) ==> s.deletions == 2)
            && (!Over(s) && !ReleasedDuringDelivery(Init(true), es) ==> s.deletions == 0)
            && (Over(s) ==> forall e :: !Enabled(s, e))
  {
    RunKeepsInv(Init(true), es);
    ReleasedInsideMeans(Init(true), es);
    SpawnedIsFixed(Init(true), es);
  }

  /** A task that awaits the close and then drops the process, as leaving the scope of a local one does. */
  lemma ReleaseAfterAwaitedClose()
    ensures var es := [Exit] + [AwaitClose(7, true)] + [CloseCallback] + [ResumeNext] + [ReleaseOwner] + [EndComplete];
            Run(Init(true), es).deletions == 2
  {
    RunThreeMore(Init(true), [], Exit, AwaitClose(7, true), CloseCallback);
    assert [] + [Exit] == [Exit];
    AwaitedCloseIsDelivered();
    RunThreeMore(Init(true), [Exit] + [AwaitClose(7, true)] + [CloseCallback], ResumeNext, ReleaseOwner, EndComplete);
    ReleasedInTheDelivery();
  }

  lemma RunThreeMore(s: State, es: seq<Event>, a: Event, b: Event, c: Event)
    ensures Run(s, es + [a] + [b] + [c]) == Step(Step(Step(Run(s, es), a), b), c)
  {
    RunOneMore(s, es, a);
    RunOneMore(s, es + [a], b);
    RunOneMore(s, es + [a] + [b], c);
  }

  /** An exited process whose one close waiter is about to be resumed. */
  const Delivering: State :=
    Init(true).(exited := true, phase := Closed, completionActive := true, delivering := [7], nativeCloses := 1,
                registered := [7])

  lemma AwaitedCloseIsDelivered()
    ensures Step(Step(Step(Init(true), Exit), AwaitClose(7, true)), CloseCallback) == Delivering
  {
    assert Step(Init(true), Exit) == Init(true).(exited := true);
  }

  lemma ReleasedInTheDelivery()
    ensures Step(Step(Step(Delivering, ResumeNext), ReleaseOwner), EndComplete).deletions == 2
  {
    assert Step(Delivering, ResumeNext) == Delivering.(delivering := [], resumed := [7]);
  }

  /** Between the two deletions the delivery goes on with a state that is already gone. */
  lemma {:induction false} DeletedStateIsUsedIffReleasedDuringDelivery(es: seq<Event>)
    ensures var s := Run(Init(true), es);
            s.deletions > 0 && (exists e :: Enabled(s, e)) <==>
            s.completionActive && ReleasedDuringDelivery(Init(true), es)
  {
    RunKeepsInv(Init(true), es);
    ReleasedInsideMeans(Init(true), es);
    SpawnedIsFixed(Init(true), es);
    var s := Run(Init(true), es);
    if s.completionActive {
      assert Enabled(s, if s.delivering == [] then EndComplete else ResumeNext);
    }
  }

  /** A failed spawn has no owner to release: its state is deleted by the close callback, once. */
  lemma {:induction false} FailedSpawnIsDeletedOnce(es: seq<Event>)
    ensures var s := Run(Init(false), es);
            && s.deletions == (if Over(s) then 1 else 0)
            && s.registered == [] && s.claimed == []
            && (Over(s) ==> forall e :: !Enabled(s, e))
  {
    RunKeepsInv(Init(false), es);
    SpawnedIsFixed(Init(false), es);
    OwnerlessIsNotReleased(es);
  }

  lemma {:induction false} OwnerlessIsNotReleased(es: seq<Event>)
    ensures Run(Init(false), es).ownerReleased && !Run(Init(false), es).releasedInside
  {
    if es != [] {
      OwnerlessIsNotReleased(es[..|es| - 1]);
      StepHistory(Run(Init(false), es[..|es| - 1]), es[|es| - 1]);
    }
  }

  /** What happens next without an owner. */
  function NextEvent(s: State): Event {
    if s.closePending then CloseCallback
    else if !s.exited && s.spawned then Exit
    else if s.delivering != [] then ResumeNext
    else EndComplete
  }

  function StepsLeft(s: State): nat {
    if s.phase == Closed then (if s.completionActive then |s.delivering| + 1 else 0)
    else |s.closeWaiters| + (if s.closePending then 2 else 3)
  }

  lemma NextEventMakesProgress(s: State)
    requires Inv(s) && s.ownerReleased && !Over(s)
    ensures Enabled(s, NextEvent(s))
    ensures var t := Step(s, NextEvent(s)); t.ownerReleased && StepsLeft(t) < StepsLeft(s)
    ensures Step(s, NextEvent(s)).releasedInside == s.releasedInside
  {
  }

  function RemainingEvents(s: State): seq<Event>
    requires Inv(s) && s.ownerReleased
    decreases StepsLeft(s)
  {
    if Over(s) then []
    else
      NextEventMakesProgress(s);
      StepKeepsInv(s, NextEvent(s));
      [NextEvent(s)] + RemainingEvents(Step(s, NextEvent(s)))
  }

  /** A process without an owner never leaks: once the child exits its state goes away with everybody resumed. */
  lemma {:induction false} ReleasedProcessIsDeleted(s: State)
    requires Inv(s) && s.ownerReleased
    ensures var t := Run(s, RemainingEvents(s));
            && Over(t) && t.resumed == t.registered && Tasks(t.answered) == t.claimed
            && t.deletions == (if s.releasedInside then 2 else 1)
    decreases StepsLeft(s)
  {
    if Over(s) {
      assert s.waiter == None;
    } else {
      var e := NextEvent(s);
      NextEventMakesProgress(s);
      StepKeepsInv(s, e);
      ReleasedProcessIsDeleted(Step(s, e));
      RunConcat(s, [e], RemainingEvents(Step(s, e)));
      assert Run(s, [e]) == Step(s, e) by { assert [e][..0] == []; }
    }
  }

  lemma RunOneMore(s: State, es: seq<Event>, e: Event)
    ensures Run(s, es + [e]) == Step(Run(s, es), e)
  {
    assert (es + [e])[..|es|] == es;
  }

  lemma {:induction false} RunConcat(s: State, a: seq<Event>, b: seq<Event>)
    ensures Run(s, a + b) == Run(Run(s, a), b)
    decreases |b|
  {
    if b == [] {
      assert a + b == a;
    } else {
      var front := b[..|b| - 1];
      assert (a + b)[..|a + b| - 1] == a + front;
      RunConcat(s, a, front);
    }
  }

  // ----- The state object -----

  datatype CloseAnswer = WrongLoop | AlreadyClosed | Busy | Registered(initiated: bool)

  /** `process_state`, with the fields of its `async_close_state` and its waiter slot. */
  class ProcessState {
    const spawned: bool
    var exited: bool
    var phase: Phase
    var closeWaiters: seq<Continuation>
    var waiter: Option<Continuation>
    var ownerReleased: bool
    var completionActive: bool
    ghost var m: State

    ghost predicate Valid()
      reads this
    {
      && Inv(m)
      && m.spawned == spawned && m.exited == exited && m.phase == phase && m.closeWaiters == closeWaiters
      && m.waiter == waiter && m.ownerReleased == ownerReleased && m.completionActive == completionActive
    }

    constructor (spawned: bool)
      ensures Valid() && m == Init(spawned) && this.spawned == spawned
    {
      this.spawned, exited, phase, closeWaiters, waiter := spawned, false, Open, [], None;
      ownerReleased, completionActive := !spawned, false;
      m := Init(spawned);
    }

    /** `wait_awaiter::await_suspend`. */
    method AwaitExit(continuation: Continuation, sameLoop: bool, stopRequested: bool, registers: bool)
      returns (answer: WaitAnswer)
      requires Valid() && !ownerReleased
      modifies this
      ensures Valid() && m == Step(old(m), Wait(continuation, sameLoop, stopRequested, registers))
      ensures answer == (if phase != Open then Rejected(UV_EBADF) else if !sameLoop then WaitAnswer.WrongLoop
                         else if stopRequested then Rejected(UV_ECANCELED) else if exited then Exited
                         else if old(waiter).Some? then Rejected(UV_EBUSY)
                         else if !registers then Rejected(UV_ECANCELED) else Suspends)
      ensures answer.Suspends? ==> waiter == Some(continuation)
      ensures !answer.Suspends? ==> m == old(m)
      ensures phase == old(phase) && completionActive == old(completionActive)
    {
      StepKeepsInv(m, Wait(continuation, sameLoop, stopRequested, registers));
      m := Step(m, Wait(continuation, sameLoop, stopRequested, registers));
      if phase != Open {
        return Rejected(UV_EBADF);
      }
      if !sameLoop {
        return WaitAnswer.WrongLoop;
      }
      if stopRequested {
        return Rejected(UV_ECANCELED);
      }
      if exited {
        return Exited;
      }
      if waiter.Some? {
        return Rejected(UV_EBUSY);
      }
      waiter := Some(continuation);
      if !registers {
        waiter := None;
        return Rejected(UV_ECANCELED);
      }
      answer := Suspends;
    }

    /** The waiter slot is emptied before its task is resumed. */
    method TakeWaiter() returns (task: Option<Continuation>)
      modifies this`waiter
      ensures task == old(waiter) && waiter == None
    {
      task := waiter;
      waiter := None;
    }

    method CancelWaiter() returns (resumed: Option<Continuation>)
      requires Valid() && waiter.Some?
      modifies this
      ensures Valid() && m == Step(old(m), CancelWait)
      ensures resumed == old(waiter) && waiter == None
      ensures m.answered == old(m.answered) + [Cancelled(resumed.value)]
    {
      StepKeepsInv(m, CancelWait);
      m := Step(m, CancelWait);
      resumed := TakeWaiter();
    }

    /** `request_close()`; the model `m` already accounts for it. */
    method BeginClose() returns (initiated: bool)
      modifies this`phase
      ensures initiated <==> exited && old(phase) == Open
      ensures phase == (if initiated then Closing else old(phase))
    {
      if !exited || phase != Open {
        return false;
      }
      phase := Closing;
      initiated := true;
    }

    /** The public `request_close()`: busy until the child has exited. */
    method CloseRequested() returns (busy: bool)
      requires Valid() && !ownerReleased
      modifies this
      ensures Valid() && m == Step(old(m), RequestClose)
      ensures busy <==> !exited
      ensures busy ==> m == old(m)
      ensures !busy ==> phase != Open
      ensures old(phase) != Open ==> phase == old(phase)
      ensures completionActive == old(completionActive)
    {
      StepKeepsInv(m, RequestClose);
      m := Step(m, RequestClose);
      busy := !exited;
      if !busy {
        var initiated := BeginClose();
      }
    }

    /** The close awaiter. */
    method AwaitClosed(continuation: Continuation, sameLoop: bool) returns (answer: CloseAnswer)
      requires Valid() && !ownerReleased
      modifies this
      ensures Valid() && m == Step(old(m), AwaitClose(continuation, sameLoop))
      ensures answer == (if !sameLoop then CloseAnswer.WrongLoop else if old(phase) == Closed then AlreadyClosed
                         else if !exited then Busy else Registered(old(phase) == Open))
      ensures answer.Registered? ==> closeWaiters == old(closeWaiters) + [continuation] && phase == Closing
      ensures !answer.Registered? ==> m == old(m)
      ensures completionActive == old(completionActive)
    {
      StepKeepsInv(m, AwaitClose(continuation, sameLoop));
      m := Step(m, AwaitClose(continuation, sameLoop));
      if !sameLoop {
        return CloseAnswer.WrongLoop;
      }
      if phase == Closed {
        return AlreadyClosed;
      }
      if !exited {
        return Busy;
      }
      closeWaiters := closeWaiters + [continuation];
      var initiated := BeginClose();
      answer := Registered(initiated);
    }

    /** `release_owner()`: it asks only whether the close has completed. */
    method DropOwner() returns (deleted: bool)
      requires Valid() && !ownerReleased
      modifies this
      ensures Valid() && m == Step(old(m), ReleaseOwner) && ownerReleased
      ensures deleted <==> old(phase) == Closed
      ensures m.deletions == (if deleted then 1 else 0)
      ensures phase == (if exited && old(phase) == Open then Closing else old(phase))
      ensures completionActive == old(completionActive)
    {
      StepKeepsInv(m, ReleaseOwner);
      m := Step(m, ReleaseOwner);
      ownerReleased := true;
      deleted := false;
      if !exited {
        return;
      }
      if phase == Open {
        var initiated := BeginClose();
      } else if phase == Closed {
        deleted := true;
      }
    }

    /** `on_exit`: without an owner the close is submitted before the waiter is resumed. */
    method OnExit() returns (resumed: Option<Continuation>)
      requires Valid() && Enabled(m, Exit)
      modifies this
      ensures Valid() && m == Step(old(m), Exit)
      ensures exited && waiter == None && resumed == old(waiter)
      ensures m.answered == old(m.answered) + (if resumed.Some? then [ByExit(resumed.value)] else [])
      ensures phase == (if ownerReleased then Closing else old(phase))
      ensures ownerReleased ==> m.closePending
    {
      StepKeepsInv(m, Exit);
      m := Step(m, Exit);
      exited := true;
      if ownerReleased {
        var initiated := BeginClose();
      }
      resumed := TakeWaiter();
    }

    /** One call through the owner by a resumed close waiter. */
    method Act(e: Event)
      requires Valid() && Api(e) && completionActive
      modifies this
      ensures Valid() && m == Step(old(m), e) && completionActive && phase == Closed
      ensures m.delivering == old(m.delivering)
    {
      if !ownerReleased {
        match e
        case Wait(c, sameLoop, stopRequested, registers) =>
          var answer := AwaitExit(c, sameLoop, stopRequested, registers);
        case AwaitClose(c, sameLoop) =>
          var answer := AwaitClosed(c, sameLoop);
        case RequestClose =>
          var busy := CloseRequested();
        case ReleaseOwner =>
          var deleted := DropOwner();
      }
    }

    method Interleave(actions: seq<Event>)
      requires Valid() && completionActive
      requires forall i :: 0 <= i < |actions| ==> Api(actions[i])
      modifies this
      ensures Valid() && m == Run(old(m), actions) && completionActive && phase == Closed
      ensures m.delivering == old(m.delivering)
    {
      for i := 0 to |actions|
        invariant Valid() && m == Run(old(m), actions[..i]) && completionActive
        invariant m.delivering == old(m.delivering)
      {
        assert actions[..i + 1][..i] == actions[..i];
        Act(actions[i]);
      }
      assert actions[..|actions|] == actions;
    }

    /**
    `on_close` and `complete()`: `others(i)` is what the i-th close waiter does when it is
    resumed. `deletes` is whether this callback deletes the state at its end.
    */
    method OnClose(others: nat -> seq<Event>) returns (deletes: bool, ghost trace: seq<Event>)
      requires Valid() && m.closePending
      requires forall k: nat, i :: 0 <= i < |others(k)| ==> Api(others(k)[i])
      modifies this
      ensures Valid() && m == Run(old(m), trace)
      ensures phase == Closed && !completionActive && m.resumed == m.registered
      ensures deletes <==> ownerReleased
      ensures m.deletions == (if deletes then 1 else 0) + (if m.releasedInside then 1 else 0)
      ensures m.releasedInside ==> deletes
    {
      RunOneMore(m, [], CloseCallback);
      trace := [] + [CloseCallback];
      var detached := DetachWaiters();
      ghost var more := ResumeAll(detached, others);
      RunConcat(old(m), trace, more);
      RunOneMore(old(m), trace + more, EndComplete);
      trace := trace + more + [EndComplete];
      deletes := Conclude();
    }

    /** The start of `complete()`: every close waiter is detached before the first is resumed. */
    method DetachWaiters() returns (detached: seq<Continuation>)
      requires Valid() && m.closePending
      modifies this
      ensures Valid() && m == Step(old(m), CloseCallback)
      ensures phase == Closed && completionActive && closeWaiters == []
      ensures detached == old(closeWaiters) == m.delivering
    {
      StepKeepsInv(m, CloseCallback);
      m := Step(m, CloseCallback);
      detached := closeWaiters;
      phase, completionActive, closeWaiters := Closed, true, [];
    }

    /** The end of `complete()`. */
    method Conclude() returns (deletes: bool)
      requires Valid() && Enabled(m, EndComplete)
      modifies this
      ensures Valid() && m == Step(old(m), EndComplete)
      ensures phase == Closed && !completionActive && m.resumed == m.registered
      ensures deletes <==> ownerReleased
      ensures m.deletions == (if deletes then 1 else 0) + (if m.releasedInside then 1 else 0)
      ensures m.releasedInside ==> deletes
    {
      StepKeepsInv(m, EndComplete);
      m := Step(m, EndComplete);
      completionActive := false;
      deletes := ownerReleased;
    }

    method ResumeAll(detached: seq<Continuation>, others: nat -> seq<Event>) returns (ghost trace: seq<Event>)
      requires Valid() && completionActive && m.delivering == detached
      requires forall k: nat, i :: 0 <= i < |others(k)| ==> Api(others(k)[i])
      modifies this
      ensures Valid() && m == Run(old(m), trace)
      ensures phase == Closed && completionActive && m.delivering == []
    {
      trace := [];
      for i := 0 to |detached|
        invariant Valid() && m == Run(old(m), trace)
        invariant completionActive && m.delivering == detached[i..]
      {
        RunOneMore(old(m), trace, ResumeNext);
        RunConcat(old(m), trace + [ResumeNext], others(i));
        trace := trace + [ResumeNext] + others(i);
        StepKeepsInv(m, ResumeNext);
        m := Step(m, ResumeNext);
        Interleave(others(i));
      }
    }
  }
}
