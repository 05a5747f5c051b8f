/**
`spawn_handle::state`: the shared state of a root task, its completion baton, its joiners and
the public handle that may be dropped at any time, also from inside a joiner or while a stop
completes the root synchronously.

`refs` names who holds a reference to the shared state; the state is destroyed with the last one.
A stop walks the registrations of the shared state and reads them again after every callback, so
it uses the state until it returns. `release()` keeps a reference meanwhile; a `request_stop()`
called on the handle does not.
*/
module SpawnHandle {

  import opened Options

  type Failure = nat
  type Continuation = nat

  datatype Root = Running | Done(failure: Option<Failure>)

  /** `Releasing` is the local reference in `spawn_handle::release()`; an awaiter's reference is its own. */
  datatype Holder = Public | Baton | Releasing | Awaiter(continuation: Continuation)

  /** The root (or a task it awaits) running, the baton's delivery, `release()`, and the walk of the first stop. */
  datatype Frame = Body | Deliver | Release | Stop

  datatype State = State(
    root: Root,
    joiners: seq<Continuation>,
    baton: bool,
    completed: bool,
    abandoned: bool,
    observed: bool,
    reported: bool,
    stopRequested: bool,
    // continuations detached by deliver_completion() and not resumed yet, and whether it is past them
    delivering: seq<Continuation>,
    routed: bool,
    refs: set<Holder>,
    destroyed: bool,
    stack: seq<Frame>,
    // history: joiners that suspended, joiners resumed, failures passed to the loop
    suspended: seq<Continuation>,
    resumed: seq<Continuation>,
    reports: seq<Failure>)

  datatype Event =
    | ResumeRoot
    | SuspendRoot
    | Finish(failure: Option<Failure>)
    | ResumeJoiner
    | EndResuming
    | EndDelivery
    | MakeAwaiter(continuation: Continuation)
    | Join(continuation: Continuation)
    | DropAwaiter(continuation: Continuation)
    | Observe
    | RequestStop
    | EndStop
    | BeginRelease
    | EndRelease

  const Init: State :=
    State(Running, [], true, false, false, false, false, false, [], false, {Public, Baton}, false, [], [], [], [])

  function Top(s: State): Option<Frame> {
    if s.stack == [] then None else Some(s.stack[|s.stack| - 1])
  }

  function Below(s: State): seq<Frame> {
    if s.stack == [] then [] else s.stack[..|s.stack| - 1]
  }

  /** Joiners are still being resumed. */
  predicate Delivering(s: State) {
    Deliver in s.stack && !s.routed
  }

  /**
  Code outside the library is running: on its own, as the root's body, as a joiner that has been
  resumed, as the handler of a reported failure, or as a stop callback. Callbacks are registered
  by tasks of the root, so there are none once the root is done.
  */
  predicate UserCode(s: State) {
    match Top(s)
    case None => true
    case Some(Body) => true
    case Some(Stop) => s.root.Running?
    case Some(Deliver) => if s.routed then s.reports != [] else s.resumed != []
    case Some(Release) => s.reports != []
  }

  /**
  `join()` makes an awaiter with a reference of its own, which may be awaited at any later time,
  also when the handle is gone. The awaiting task keeps it alive until it is resumed, so the
  reference of an awaiter that is still queued cannot be dropped.
  */
  predicate Enabled(s: State, e: Event) {
    match e
    case ResumeRoot => s.root.Running? && Body !in s.stack && (Top(s) == None || Top(s) == Some(Stop))
    case SuspendRoot => Top(s) == Some(Body)
    case Finish(_) => Top(s) == Some(Body) && s.baton
    case ResumeJoiner => Top(s) == Some(Deliver) && !s.routed && s.delivering != []
    case EndResuming => Top(s) == Some(Deliver) && !s.routed && s.delivering == []
    case EndDelivery => Top(s) == Some(Deliver) && s.routed
    case MakeAwaiter(c) => UserCode(s) && Public in s.refs && Awaiter(c) !in s.refs
    case Join(c) => UserCode(s) && Awaiter(c) in s.refs && c !in s.joiners && c !in s.delivering
    case DropAwaiter(c) => UserCode(s) && Awaiter(c) in s.refs && c !in s.joiners && c !in s.delivering
    case Observe => UserCode(s) && Public in s.refs
    case RequestStop => UserCode(s) && Public in s.refs
    case EndStop => Top(s) == Some(Stop)
    case BeginRelease => UserCode(s) && Public in s.refs
    case EndRelease => Top(s) == Some(Release)
  }

  function ReportIfNeeded(s: State): State {
    if !s.root.Done? || s.root.failure == None || s.observed || s.reported then s
    else s.(reported := true, reports := s.reports + [s.root.failure.value])
  }

  function Drop(s: State, h: Holder): State {
    var left := s.refs - {h};
    s.(refs := left, destroyed := s.destroyed || left == {})
  }

  /** `cancellation_state::request_stop()`: only the first one walks the registrations. */
  function RaiseStop(s: State): State {
    if s.stopRequested then s else s.(stopRequested := true, stack := s.stack + [Stop])
  }

  /** `release()` up to the end of its report or the start of its stop. */
  function StartRelease(s: State): State {
    var t := s.(refs := s.refs - {Public} + {Releasing}, stack := s.stack + [Release]);
    if s.completed then ReportIfNeeded(t) else RaiseStop(t.(abandoned := true))
  }

  function FinishRoot(s: State, failure: Option<Failure>): State {
    s.(root := Done(failure), baton := false, completed := true,
       delivering := s.joiners, joiners := [], stack := Below(s) + [Deliver])
  }

  function Step(s: State, e: Event): State {
    if !Enabled(s, e) then s else
    match e
    case ResumeRoot => s.(stack := s.stack + [Body])
    case SuspendRoot => s.(stack := Below(s))
    case Finish(failure) => FinishRoot(s, failure)
    case ResumeJoiner =>
      s.(delivering := s.delivering[1..], resumed := s.resumed + [s.delivering[0]])
    case EndResuming =>
      var t := s.(routed := true);
      if s.abandoned then ReportIfNeeded(t) else t
    case EndDelivery => Drop(s.(stack := Below(s)), Baton)
    case MakeAwaiter(c) => s.(refs := s.refs + {Awaiter(c)})
    case Join(c) =>
      if s.completed then s else s.(joiners := s.joiners + [c], suspended := s.suspended + [c])
    case DropAwaiter(c) => Drop(s, Awaiter(c))
    case Observe =>
      if s.completed && s.root.Done? && s.root.failure.Some? then s.(observed := true) else s
    case RequestStop => RaiseStop(s)
    case EndStop => s.(stack := Below(s))
    case BeginRelease => StartRelease(s)
    case EndRelease => Drop(s.(stack := Below(s)), Releasing)
  }

  function Run(s: State, es: seq<Event>): State {
    if es == [] then s else Step(Run(s, es[..|es| - 1]), es[|es| - 1])
  }

  // ----- The invariant -----

  function Failed(s: State): bool {
    s.root.Done? && s.root.failure.Some?
  }

  /** Each kind of frame is on the stack at most once. */
  predicate Once(stack: seq<Frame>) {
    stack == [] || (Once(stack[..|stack| - 1]) && stack[|stack| - 1] !in stack[..|stack| - 1])
  }

  lemma Pushed(stack: seq<Frame>, f: Frame)
    ensures Once(stack + [f]) <==> Once(stack) && f !in stack
  {
    assert (stack + [f])[..|stack|] == stack;
  }

  lemma TopIsOnTheStack(s: State)
    requires s.stack != []
    ensures s.stack == Below(s) + [Top(s).value]
    ensures forall f :: f in s.stack <==> f in Below(s) || f == Top(s).value
  {
  }

  predicate StackMatches(s: State) {
    && Once(s.stack)
    && (Body in s.stack ==> s.root.Running?)
    && (Deliver in s.stack ==> s.root.Done?)
    && (Stop in s.stack ==> s.stopRequested)
    && (s.routed ==> s.root.Done?)
    && (s.root.Done? && Deliver !in s.stack ==> s.routed)
    && (s.delivering != [] ==> Delivering(s))
    && (s.baton <==> s.root.Running?)
    && (s.completed <==> s.root.Done?)
    && (s.abandoned ==> s.stopRequested)
  }

  /** Who holds what because of the frames on the stack. */
  predicate RefsMatch(s: State) {
    && (Releasing in s.refs <==> Release in s.stack)
    && !(Public in s.refs && Releasing in s.refs)
    && (Baton in s.refs <==> s.root.Running? || Deliver in s.stack)
    && (s.destroyed <==> s.refs == {})
  }

  predicate JoinersMatch(s: State) {
    && s.suspended == s.resumed + s.delivering + s.joiners
    && (s.completed ==> s.joiners == [])
    && (s.root.Running? ==> s.resumed == [] && s.delivering == [])
  }

  /** Where the failure has gone, or who will still route it. */
  predicate FailureRouted(s: State) {
    && (s.observed ==> Failed(s))
    && s.reports == (if s.reported && Failed(s) then [s.root.failure.value] else [])
    && (s.reported ==> Failed(s) && Public !in s.refs)
    && !(s.observed && s.reported)
    && (s.abandoned ==> Public !in s.refs && !s.observed)
    && (Public !in s.refs && !s.abandoned ==> s.completed && (Failed(s) ==> s.observed || s.reported))
    && (Public !in s.refs && s.abandoned && Failed(s) ==> s.reported || Delivering(s))
  }

  predicate Inv(s: State) {
    StackMatches(s) && RefsMatch(s) && JoinersMatch(s) && FailureRouted(s)
  }

  lemma StepKeepsInv(s: State, e: Event)
    requires Inv(s)
    ensures Inv(Step(s, e))
  {
    StepKeepsStack(s, e);
    StepKeepsRefs(s, e);
    StepKeepsJoiners(s, e);
    StepKeepsRouting(s, e);
  }

  lemma StepKeepsStack(s: State, e: Event)
    requires StackMatches(s) && RefsMatch(s)
    ensures StackMatches(Step(s, e))
  {
    if Enabled(s, e) {
      match e
      case ResumeRoot => BodyKeepsStack(s);
      case SuspendRoot => PopKeepsStack(s);
      case Finish(failure) => FinishKeepsStack(s, failure);
      case ResumeJoiner => ResumingKeepsStack(s);
      case EndResuming => EndResumingKeepsStack(s);
      case EndDelivery => DeliveredKeepsStack(s);
      case RequestStop => StopKeepsStack(s);
      case EndStop => PopKeepsStack(s);
      case BeginRelease => ReleaseKeepsStack(s);
      case EndRelease => PopKeepsStack(s);
      case _ => CallKeepsStack(s, e);
    }
  }

  lemma CallKeepsStack(s: State, e: Event)
    requires StackMatches(s) && Call(e) && Enabled(s, e)
    ensures StackMatches(Step(s, e))
  {
    CallKeepsFrames(s, e);
  }

  /** A call that starts no frame: `join()` and its awaiter, and the functions that look at the failure. */
  predicate Call(e: Event) {
    e.MakeAwaiter? || e.Join? || e.DropAwaiter? || e.Observe?
  }

  lemma CallKeepsFrames(s: State, e: Event)
    requires Call(e) && Enabled(s, e)
    ensures var t := Step(s, e);
            && t.root == s.root && t.baton == s.baton && t.completed == s.completed && t.abandoned == s.abandoned
            && t.stopRequested == s.stopRequested && t.delivering == s.delivering && t.routed == s.routed
            && t.stack == s.stack
  {
    match e
    case MakeAwaiter(_) =>
    case Join(_) =>
    case DropAwaiter(_) =>
    case Observe =>
  }

  lemma BodyKeepsStack(s: State)
    requires StackMatches(s) && Enabled(s, ResumeRoot)
    ensures StackMatches(Step(s, ResumeRoot))
  {
    Pushed(s.stack, Body);
  }

  lemma ResumingKeepsStack(s: State)
    requires StackMatches(s) && Enabled(s, ResumeJoiner)
    ensures StackMatches(Step(s, ResumeJoiner))
  {
    TopIsOnTheStack(s);
  }

  lemma EndResumingKeepsStack(s: State)
    requires StackMatches(s) && Enabled(s, EndResuming)
    ensures StackMatches(Step(s, EndResuming))
  {
    TopIsOnTheStack(s);
  }

  lemma PopKeepsStack(s: State)
    requires StackMatches(s) && s.stack != [] && Top(s).value != Deliver
    ensures StackMatches(s.(stack := Below(s)))
  {
    TopIsOnTheStack(s);
  }

  lemma FinishKeepsStack(s: State, failure: Option<Failure>)
    requires StackMatches(s) && Enabled(s, Finish(failure))
    ensures StackMatches(FinishRoot(s, failure))
  {
    TopIsOnTheStack(s);
    Pushed(Below(s), Deliver);
  }

  lemma DeliveredKeepsStack(s: State)
    requires StackMatches(s) && Enabled(s, EndDelivery)
    ensures StackMatches(s.(stack := Below(s)))
  {
    TopIsOnTheStack(s);
  }

  lemma StopKeepsStack(s: State)
    requires StackMatches(s)
    ensures StackMatches(RaiseStop(s))
  {
    Pushed(s.stack, Stop);
  }

  lemma ReleaseKeepsStack(s: State)
    requires StackMatches(s) && RefsMatch(s) && Public in s.refs
    ensures StackMatches(StartRelease(s))
  {
    Pushed(s.stack, Release);
    var t := s.(refs := s.refs - {Public} + {Releasing}, stack := s.stack + [Release]);
    assert StackMatches(t);
    if s.completed {
      assert StartRelease(s) == ReportIfNeeded(t);
    } else {
      StopKeepsStack(t);
      assert StartRelease(s) == RaiseStop(t).(abandoned := true);
    }
  }

  lemma StepKeepsRefs(s: State, e: Event)
    requires StackMatches(s) && RefsMatch(s)
    ensures RefsMatch(Step(s, e))
  {
    if Enabled(s, e) {
      match e
      case SuspendRoot => PopKeepsRefs(s);
      case Finish(failure) => FinishKeepsRefs(s, failure);
      case EndDelivery => DropKeepsRefs(s, Deliver, Baton);
      case MakeAwaiter(c) => MakeKeepsRefs(s, c);
      case DropAwaiter(c) => DropAwaiterKeepsRefs(s, c);
      case EndStop => PopKeepsRefs(s);
      case BeginRelease => ReleaseKeepsRefs(s);
      case EndRelease => DropKeepsRefs(s, Release, Releasing);
      case _ =>
    }
  }

  lemma MakeKeepsRefs(s: State, c: Continuation)
    requires RefsMatch(s) && Public in s.refs
    ensures RefsMatch(s.(refs := s.refs + {Awaiter(c)}))
  {
    assert Public in s.refs + {Awaiter(c)};
  }

  lemma DropAwaiterKeepsRefs(s: State, c: Continuation)
    requires RefsMatch(s) && Awaiter(c) in s.refs
    ensures RefsMatch(Drop(s, Awaiter(c)))
  {
  }

  /** The frames of the body and of a stop keep no reference. */
  lemma PopKeepsRefs(s: State)
    requires RefsMatch(s) && (Top(s) == Some(Body) || Top(s) == Some(Stop))
    ensures RefsMatch(s.(stack := Below(s)))
  {
    TopIsOnTheStack(s);
  }

  lemma FinishKeepsRefs(s: State, failure: Option<Failure>)
    requires StackMatches(s) && RefsMatch(s) && Enabled(s, Finish(failure))
    ensures RefsMatch(FinishRoot(s, failure))
  {
    TopIsOnTheStack(s);
  }

  /** A frame ends together with the reference it kept. */
  lemma DropKeepsRefs(s: State, f: Frame, h: Holder)
    requires StackMatches(s) && RefsMatch(s) && Top(s) == Some(f)
    requires (f == Deliver && h == Baton) || (f == Release && h == Releasing)
    ensures RefsMatch(Drop(s.(stack := Below(s)), h))
  {
    TopIsOnTheStack(s);
    Pushed(Below(s), f);
    assert h in s.refs;
  }

  lemma ReleaseKeepsRefs(s: State)
    requires StackMatches(s) && RefsMatch(s) && Public in s.refs
    ensures RefsMatch(StartRelease(s))
  {
    assert Releasing in StartRelease(s).refs;
  }

  lemma StepKeepsJoiners(s: State, e: Event)
    requires StackMatches(s) && JoinersMatch(s)
    ensures JoinersMatch(Step(s, e))
  {
    if Enabled(s, e) {
      match e
      case Finish(_) => assert s.resumed + [] + s.joiners == s.resumed + s.joiners + [];
      case ResumeJoiner => ResumeKeepsJoiners(s);
      case Join(c) =>
        assert s.resumed + s.delivering + (s.joiners + [c]) == s.resumed + s.delivering + s.joiners + [c];
      case BeginRelease => ReleaseKeepsJoiners(s);
      case _ =>
    }
  }

  lemma ReleaseKeepsJoiners(s: State)
    requires JoinersMatch(s)
    ensures JoinersMatch(StartRelease(s))
  {
  }

  lemma ResumeKeepsJoiners(s: State)
    requires StackMatches(s) && JoinersMatch(s) && Enabled(s, ResumeJoiner)
    ensures JoinersMatch(Step(s, ResumeJoiner))
  {
    assert s.delivering == [s.delivering[0]] + s.delivering[1..];
    assert s.resumed + ([s.delivering[0]] + s.delivering[1..]) + s.joiners
        == s.resumed + [s.delivering[0]] + s.delivering[1..] + s.joiners;
    TopIsOnTheStack(s);
  }

  lemma StepKeepsRouting(s: State, e: Event)
    requires StackMatches(s) && RefsMatch(s) && FailureRouted(s)
    ensures FailureRouted(Step(s, e))
  {
    if Enabled(s, e) {
      match e
      case SuspendRoot => PopKeepsRouting(s);
      case Finish(failure) => FinishKeepsRouting(s, failure);
      case EndResuming => EndResumingKeepsRouting(s);
      case EndDelivery => PopKeepsRouting(s);
      case EndStop => PopKeepsRouting(s);
      case BeginRelease => ReleaseKeepsRouting(s);
      case EndRelease => PopKeepsRouting(s);
      case ResumeRoot =>
      case ResumeJoiner =>
      case RequestStop =>
      case _ => CallKeepsRouting(s, e);
    }
  }

  lemma CallKeepsRouting(s: State, e: Event)
    requires StackMatches(s) && FailureRouted(s) && Call(e) && Enabled(s, e)
    ensures FailureRouted(Step(s, e))
  {
    CallKeepsFrames(s, e);
  }

  lemma PopKeepsRouting(s: State)
    requires FailureRouted(s) && s.stack != [] && (Top(s) == Some(Deliver) ==> s.routed)
    ensures FailureRouted(s.(stack := Below(s)))
  {
    TopIsOnTheStack(s);
  }

  lemma FinishKeepsRouting(s: State, failure: Option<Failure>)
    requires StackMatches(s) && FailureRouted(s) && Enabled(s, Finish(failure))
    ensures FailureRouted(FinishRoot(s, failure))
  {
    assert Deliver in FinishRoot(s, failure).stack;
  }

  lemma EndResumingKeepsRouting(s: State)
    requires StackMatches(s) && FailureRouted(s) && Enabled(s, EndResuming)
    ensures FailureRouted(Step(s, EndResuming))
  {
    TopIsOnTheStack(s);
  }

  lemma ReleaseKeepsRouting(s: State)
    requires StackMatches(s) && RefsMatch(s) && FailureRouted(s) && Public in s.refs
    ensures FailureRouted(StartRelease(s))
  {
  }

  lemma {:induction false} RunKeepsInv(s: State, es: seq<Event>)
    requires Inv(s)
    ensures Inv(Run(s, es))
  {
    if es != [] {
      RunKeepsInv(s, es[..|es| - 1]);
      StepKeepsInv(Run(s, es[..|es| - 1]), es[|es| - 1]);
    }
  }

  // ----- Theorems over every run -----

  /**
  A failure has exactly one destination. It is never both observed through the handle and
  reported to the loop, it is reported at most once, and once the handle is gone and the
  joiners have been resumed it has gone to one of the two.
  */
  lemma {:induction false} FailureHasOneDestination(es: seq<Event>)
    ensures var s := Run(Init, es);
            && !(s.observed && s.reports != [])
            && |s.reports| <= 1
            && (s.reports != [] ==> Failed(s) && s.reports == [s.root.failure.value])
            && (Failed(s) && Public !in s.refs && !Delivering(s) ==> s.observed != (s.reports != []))
            && (!Failed(s) ==> !s.observed && s.reports == [])
  {
    RunKeepsInv(Init, es);
  }

  /** What has been observed or reported stays so. */
  lemma {:induction false} DestinationIsFinal(s: State, es: seq<Event>)
    requires Inv(s)
    ensures Inv(Run(s, es))
    ensures s.observed ==> Run(s, es).observed && Run(s, es).reports == s.reports == []
    ensures s.reports != [] ==> Run(s, es).reports == s.reports && !Run(s, es).observed
  {
    if es != [] {
      var front, e := es[..|es| - 1], es[|es| - 1];
      DestinationIsFinal(s, front);
      StepKeepsInv(Run(s, front), e);
      StepKeepsDestination(Run(s, front), e);
    }
  }

  lemma StepKeepsDestination(s: State, e: Event)
    requires FailureRouted(s)
    ensures s.observed ==> Step(s, e).observed && Step(s, e).reports == s.reports
    ensures s.reports != [] ==> Step(s, e).reports == s.reports
  {
    if Enabled(s, e) {
      match e
      case EndResuming =>
      case BeginRelease => ReleaseKeepsDestination(s);
      case _ =>
    }
  }

  lemma ReleaseKeepsDestination(s: State)
    requires FailureRouted(s)
    ensures StartRelease(s).observed == s.observed
    ensures s.observed || s.reports != [] ==> StartRelease(s).reports == s.reports
  {
  }

  /**
  Every suspended joiner is resumed exactly once, in the order of suspension, also one that began
  to wait after the handle was gone; a join made once delivery has begun does not suspend; and
  none is left over when the shared state goes away.
  */
  lemma {:induction false} JoinersResumeOnce(es: seq<Event>, c: Continuation)
    ensures var s := Run(Init, es);
            && s.suspended == s.resumed + s.delivering + s.joiners
            && (s.resumed != [] ==> s.root.Done?)
            && (s.root.Done? ==> Step(s, Join(c)).suspended == s.suspended)
            && (s.root.Done? && !Delivering(s) ==> s.resumed == s.suspended)
  {
    RunKeepsInv(Init, es);
  }

  /**
  The baton keeps the shared state alive until the root is at its final suspension point. When the
  state goes away every joiner has been resumed and the failure has gone to its destination, and
  no frame is active other than a stop called on the handle; without such a stop nothing can
  happen to the state any more.
  */
  lemma {:induction false} DestroyedOnlyAfterTheRoot(es: seq<Event>)
    ensures var s := Run(Init, es);
            s.destroyed ==>
              && s.root.Done? && s.resumed == s.suspended
              && (Failed(s) ==> s.observed != (s.reports != []))
              && (s.stack == [] || s.stack == [Stop])
              && (forall e :: Enabled(s, e) ==> e == EndStop)
              && (RequestStop !in es ==> s.stack == [] && forall e :: !Enabled(s, e))
  {
    RunKeepsInv(Init, es);
    var s := Run(Init, es);
    if s.destroyed {
      OnlyAStopIsLeft(s);
      if RequestStop !in es {
        StopsAreProtected(es);
      }
    }
  }

  lemma OnlyAStopIsLeft(s: State)
    requires Inv(s) && s.destroyed
    ensures s.root.Done? && (s.stack == [] || s.stack == [Stop])
  {
    assert Baton !in s.refs && Releasing !in s.refs;
    forall i | 0 <= i < |s.stack|
      ensures s.stack[i] == Stop
    {
      assert s.stack[i] in s.stack;
    }
    if |s.stack| > 1 {
      assert s.stack[0] in s.stack[..|s.stack| - 1] && s.stack[|s.stack| - 1] == s.stack[0];
    }
  }

  /** Every walk that is under way was raised by the `release()` right below it, which holds a reference. */
  predicate Protected(stack: seq<Frame>) {
    forall i :: 0 <= i < |stack| && stack[i] == Stop ==> i > 0 && stack[i - 1] == Release
  }

  lemma {:induction false} StopsAreProtected(es: seq<Event>)
    requires RequestStop !in es
    ensures Protected(Run(Init, es).stack)
  {
    if es != [] {
      StopsAreProtected(es[..|es| - 1]);
      StepKeepsProtection(Run(Init, es[..|es| - 1]), es[|es| - 1]);
    }
  }

  lemma StepKeepsProtection(s: State, e: Event)
    requires Protected(s.stack) && e != RequestStop
    ensures Protected(Step(s, e).stack)
  {
    if Enabled(s, e) {
      match e
      case ResumeRoot => PushKeepsProtection(s.stack, Body);
      case Finish(_) => PushKeepsProtection(Below(s), Deliver);
      case BeginRelease => ReleaseKeepsProtection(s);
      case _ =>
    }
  }

  lemma PushKeepsProtection(stack: seq<Frame>, f: Frame)
    requires Protected(stack) && (f == Stop ==> stack != [] && stack[|stack| - 1] == Release)
    ensures Protected(stack + [f])
  {
  }

  lemma ReleaseKeepsProtection(s: State)
    requires Protected(s.stack)
    ensures Protected(StartRelease(s).stack)
  {
    PushKeepsProtection(s.stack, Release);
    PushKeepsProtection(s.stack + [Release], Stop);
  }

  // ----- A stop called on the handle -----

  /** The frame at depth `base` stays on the stack all along the run. */
  predicate Under(s: State, base: nat, es: seq<Event>) {
    && |Run(s, es).stack| > base
    && (es != [] ==> Under(s, base, es[..|es| - 1]))
  }

  lemma UnderOne(s: State, base: nat, e: Event)
    requires |s.stack| > base && |Step(s, e).stack| > base
    ensures Under(s, base, [e]) && Run(s, [e]) == Step(s, e)
  {
    assert [e][..0] == [];
    assert Under(s, base, []);
  }

  lemma {:induction false} UnderConcat(s: State, base: nat, a: seq<Event>, b: seq<Event>)
    requires Under(s, base, a) && Under(Run(s, a), base, b)
    ensures Under(s, base, a + b) && Run(s, a + b) == Run(Run(s, a), b)
    decreases |b|
  {
    RunConcat(s, a, b);
    if b == [] {
      assert a + b == a;
    } else {
      var front := b[..|b| - 1];
      assert (a + b)[..|a + b| - 1] == a + front;
      UnderConcat(s, base, a, front);
    }
  }

  /** `request_stop()` is called at `s`, and before it returns the shared state is destroyed. */
  predicate DestroysUnder(s: State, es: seq<Event>) {
    Under(Step(s, RequestStop), |s.stack|, es) && Run(Step(s, RequestStop), es).destroyed
  }

  /** What a caller of `request_stop()` can see: it stops first, the root has not completed and is not running. */
  predicate Endangers(s: State) {
    !s.stopRequested && !s.completed && Body !in s.stack
  }

  lemma StepKeepsBase(s: State, base: nat, e: Event)
    requires |s.stack| > base && s.stack[base] == Stop && |Step(s, e).stack| > base
    ensures Step(s, e).stack[..base + 1] == s.stack[..base + 1]
  {
    if Enabled(s, e) {
      match e
      case Finish(failure) => FinishKeepsBase(s, base, failure);
      case BeginRelease => ReleaseKeepsBase(s, base);
      case _ =>
    }
  }

  lemma FinishKeepsBase(s: State, base: nat, failure: Option<Failure>)
    requires |s.stack| > base && s.stack[base] == Stop && Top(s) == Some(Body)
    ensures FinishRoot(s, failure).stack[..base + 1] == s.stack[..base + 1]
  {
    assert |Below(s)| > base;
  }

  lemma ReleaseKeepsBase(s: State, base: nat)
    requires |s.stack| > base
    ensures StartRelease(s).stack[..base + 1] == s.stack[..base + 1]
  {
    assert s.stack <= StartRelease(s).stack;
  }

  lemma {:induction false} UnderKeepsBase(s: State, base: nat, es: seq<Event>)
    requires |s.stack| > base && s.stack[base] == Stop && Under(s, base, es)
    ensures Run(s, es).stack[..base + 1] == s.stack[..base + 1]
  {
    if es != [] {
      var front := es[..|es| - 1];
      UnderKeepsBase(s, base, front);
      assert Run(s, front).stack[base] == Run(s, front).stack[..base + 1][base];
      StepKeepsBase(Run(s, front), base, es[|es| - 1]);
    }
  }

  /** A root whose body is below the stop cannot complete before it returns, and its baton keeps the state. */
  lemma StopInsideTheBody(s: State, es: seq<Event>)
    requires Inv(s) && Enabled(s, RequestStop) && !s.stopRequested && Body in s.stack
    ensures !DestroysUnder(s, es)
  {
    var s0, base := Step(s, RequestStop), |s.stack|;
    if Under(s0, base, es) {
      StepKeepsInv(s, RequestStop);
      RunKeepsInv(s0, es);
      UnderKeepsBase(s0, base, es);
      var t := Run(s0, es);
      assert t.stack[..base + 1] == s.stack + [Stop];
      assert Body in t.stack[..base + 1];
      assert Baton in t.refs;
    }
  }

  /** Nothing is registered with a completed root, so its stop returns at once. */
  lemma {:induction false} StopAfterTheRoot(s: State, base: nat, es: seq<Event>)
    requires s.root.Done? && Top(s) == Some(Stop) && |s.stack| == base + 1 && Under(s, base, es)
    ensures Run(s, es) == s
  {
    if es != [] {
      StopAfterTheRoot(s, base, es[..|es| - 1]);
      OnlyTheStopMoves(s, es[|es| - 1]);
    }
  }

  lemma OnlyTheStopMoves(s: State, e: Event)
    requires s.root.Done? && Top(s) == Some(Stop)
    ensures Step(s, e) == s || |Step(s, e).stack| < |s.stack|
  {
    OnlyTheStopIsEnabled(s, e);
  }

  lemma OnlyTheStopIsEnabled(s: State, e: Event)
    requires s.root.Done? && Top(s) == Some(Stop)
    ensures Enabled(s, e) <==> e == EndStop
  {
    assert !UserCode(s);
  }

  lemma {:induction false} NeverUnder(s: State, base: nat, es: seq<Event>)
    requires |s.stack| <= base
    ensures !Under(s, base, es)
  {
    if es != [] {
      NeverUnder(s, base, es[..|es| - 1]);
    }
  }

  lemma NoDangerNoDestruction(s: State, es: seq<Event>)
    requires Inv(s) && Enabled(s, RequestStop) && !Endangers(s)
    ensures !DestroysUnder(s, es)
  {
    if s.stopRequested {
      NeverUnder(s, |s.stack|, es);
    } else if s.completed {
      if Under(Step(s, RequestStop), |s.stack|, es) {
        StopAfterTheRoot(Step(s, RequestStop), |s.stack|, es);
      }
    } else {
      StopInsideTheBody(s, es);
    }
  }

  // ----- A run that destroys the state under the stop -----

  /** The stop has resumed the root, whose body runs on top of it. */
  predicate Resumed(s: State) {
    Inv(s) && s.stack == [Stop, Body]
  }

  /** The body drops every awaiter that nobody waits on. */
  lemma {:induction false} DropsIdleAwaiters(s: State) returns (es: seq<Event>)
    requires Resumed(s)
    ensures Under(s, 0, es)
    ensures var t := Run(s, es);
            && Resumed(t) && (Public in t.refs <==> Public in s.refs)
            && forall c :: Awaiter(c) in t.refs ==> c in t.joiners
    decreases |s.refs|
  {
    if c :| Awaiter(c) in s.refs && c !in s.joiners {
      var t := Step(s, DropAwaiter(c));
      StepKeepsInv(s, DropAwaiter(c));
      UnderOne(s, 0, DropAwaiter(c));
      assert |t.refs| < |s.refs|;
      var rest := DropsIdleAwaiters(t);
      UnderConcat(s, 0, [DropAwaiter(c)], rest);
      es := [DropAwaiter(c)] + rest;
    } else {
      es := [];
    }
  }

  /** The body drops the handle, if it is still there; the stop it raises is not the first one. */
  lemma DropsTheHandle(s: State) returns (es: seq<Event>)
    requires Resumed(s) && forall c :: Awaiter(c) in s.refs ==> c in s.joiners
    ensures Under(s, 0, es)
    ensures var t := Run(s, es);
            && Resumed(t) && Public !in t.refs
            && forall c :: Awaiter(c) in t.refs ==> c in t.joiners
  {
    if Public !in s.refs {
      es := [];
    } else {
      es := [BeginRelease] + [EndRelease];
      var t := Step(s, BeginRelease);
      ReleasedInTheBody(s);
      UnderOne(s, 0, BeginRelease);
      UnderOne(t, 0, EndRelease);
      UnderConcat(s, 0, [BeginRelease], [EndRelease]);
    }
  }

  lemma ReleasedInTheBody(s: State)
    requires Resumed(s) && Public in s.refs
    ensures Step(s, BeginRelease).stack == [Stop, Body, Release]
    ensures var t := Step(Step(s, BeginRelease), EndRelease);
            Resumed(t) && t.refs == s.refs - {Public} && t.joiners == s.joiners
  {
    StepKeepsInv(s, BeginRelease);
    StepKeepsInv(Step(s, BeginRelease), EndRelease);
    BeginsInTheBody(s);
    EndsInTheBody(Step(s, BeginRelease), s.refs);
  }

  lemma BeginsInTheBody(s: State)
    requires Resumed(s) && Public in s.refs
    ensures Step(s, BeginRelease) ==
            s.(refs := s.refs - {Public} + {Releasing}, stack := [Stop, Body, Release], abandoned := true)
    ensures Releasing !in s.refs
  {
    assert Stop in s.stack && s.stack + [Release] == [Stop, Body, Release];
    assert Release !in s.stack;
  }

  lemma EndsInTheBody(s: State, refs: set<Holder>)
    requires s.stack == [Stop, Body, Release] && Releasing !in refs && s.refs == refs - {Public} + {Releasing}
    ensures var t := Step(s, EndRelease);
            t.stack == [Stop, Body] && t.refs == refs - {Public} && t.joiners == s.joiners
  {
    assert Below(s) == [Stop, Body];
  }

  /** The baton delivers on top of the stop, and only those still to be resumed share the state with it. */
  predicate DeliversUnderTheStop(s: State) {
    && Inv(s) && s.stack == [Stop, Deliver] && !s.routed && s.joiners == [] && s.root == Done(None)
    && forall h :: h in s.refs ==> h == Baton || (h.Awaiter? && h.continuation in s.delivering)
  }

  lemma FinishesUnderTheStop(s: State)
    requires Resumed(s) && Public !in s.refs && forall c :: Awaiter(c) in s.refs ==> c in s.joiners
    ensures DeliversUnderTheStop(Step(s, Finish(None)))
  {
    StepKeepsInv(s, Finish(None));
    assert Below(s) == [Stop];
    assert Release !in s.stack;
  }

  /** Each resumed joiner drops its awaiter. */
  lemma {:induction false} JoinersDropTheirAwaiters(s: State) returns (es: seq<Event>)
    requires DeliversUnderTheStop(s)
    ensures Under(s, 0, es)
    ensures DeliversUnderTheStop(Run(s, es)) && Run(s, es).delivering == []
    decreases |s.delivering|
  {
    if s.delivering == [] {
      es := [];
    } else {
      var c := s.delivering[0];
      JoinerDropsItsAwaiter(s);
      var rest := JoinersDropTheirAwaiters(Run(s, [ResumeJoiner] + [DropAwaiter(c)]));
      UnderConcat(s, 0, [ResumeJoiner] + [DropAwaiter(c)], rest);
      es := [ResumeJoiner] + [DropAwaiter(c)] + rest;
    }
  }

  lemma JoinerDropsItsAwaiter(s: State)
    requires DeliversUnderTheStop(s) && s.delivering != []
    ensures var es := [ResumeJoiner] + [DropAwaiter(s.delivering[0])];
            && Under(s, 0, es) && DeliversUnderTheStop(Run(s, es))
            && Run(s, es).delivering == s.delivering[1..]
  {
    var c := s.delivering[0];
    var t := Step(s, ResumeJoiner);
    StepKeepsInv(s, ResumeJoiner);
    StepKeepsInv(t, DropAwaiter(c));
    ResumedThenDropped(s, t);
    UnderOne(s, 0, ResumeJoiner);
    UnderOne(t, 0, DropAwaiter(c));
    UnderConcat(s, 0, [ResumeJoiner], [DropAwaiter(c)]);
  }

  lemma ResumedThenDropped(s: State, t: State)
    requires DeliversUnderTheStop(s) && s.delivering != [] && t == Step(s, ResumeJoiner)
    requires Inv(Step(t, DropAwaiter(s.delivering[0])))
    ensures var u := Step(t, DropAwaiter(s.delivering[0]));
            DeliversUnderTheStop(u) && t.stack == u.stack == s.stack && u.delivering == s.delivering[1..]
  {
    assert s.delivering == [s.delivering[0]] + s.delivering[1..];
  }

  lemma EndsUnderTheStop(s: State)
    requires DeliversUnderTheStop(s) && s.delivering == []
    ensures var es := [EndResuming] + [EndDelivery];
            Under(s, 0, es) && Run(s, es).destroyed && Run(s, es).stack == [Stop]
  {
    var t := Step(s, EndResuming);
    UnderOne(s, 0, EndResuming);
    assert Below(t) == [Stop];
    assert t.refs - {Baton} == {};
    UnderOne(t, 0, EndDelivery);
    UnderConcat(s, 0, [EndResuming], [EndDelivery]);
  }

  lemma DangerDestroys(s: State) returns (es: seq<Event>)
    requires Inv(s) && Enabled(s, RequestStop) && Endangers(s)
    ensures DestroysUnder(s, es)
  {
    var s0 := Step(s, RequestStop);
    StopOnAnEmptyStack(s);
    UnderOne(s0, 0, ResumeRoot);
    var s1 := Step(s0, ResumeRoot);
    var idle := DropsIdleAwaiters(s1);
    UnderConcat(s0, 0, [ResumeRoot], idle);
    var s2 := Run(s1, idle);
    var handle := DropsTheHandle(s2);
    UnderConcat(s0, 0, [ResumeRoot] + idle, handle);
    var s3 := Run(s2, handle);
    var last := FinishedRun(s3);
    UnderConcat(s0, 0, [ResumeRoot] + idle + handle, last);
    es := [ResumeRoot] + idle + handle + last;
  }

  lemma FinishedRun(s: State) returns (es: seq<Event>)
    requires Resumed(s) && Public !in s.refs && forall c :: Awaiter(c) in s.refs ==> c in s.joiners
    ensures Under(s, 0, es) && Run(s, es).destroyed
  {
    FinishesUnderTheStop(s);
    UnderOne(s, 0, Finish(None));
    var t := Step(s, Finish(None));
    var joins := JoinersDropTheirAwaiters(t);
    UnderConcat(s, 0, [Finish(None)], joins);
    EndsUnderTheStop(Run(t, joins));
    UnderConcat(s, 0, [Finish(None)] + joins, [EndResuming] + [EndDelivery]);
    es := [Finish(None)] + joins + ([EndResuming] + [EndDelivery]);
  }

  /** A root that neither runs nor has completed leaves no frame on the stack before the first stop. */
  lemma StopOnAnEmptyStack(s: State)
    requires Inv(s) && Enabled(s, RequestStop) && Endangers(s)
    ensures s.stack == [] && Resumed(Step(Step(s, RequestStop), ResumeRoot))
    ensures Step(s, RequestStop).stack == [Stop]
  {
    SomeFrame(s.stack);
    assert Release !in s.stack;
    var t := s.(stopRequested := true, stack := [Stop]);
    assert Step(s, RequestStop) == t;
    assert Step(t, ResumeRoot) == t.(stack := [Stop, Body]);
    StepKeepsInv(s, RequestStop);
    StepKeepsInv(t, ResumeRoot);
  }

  lemma SomeFrame(stack: seq<Frame>)
    ensures stack == [] || Body in stack || Deliver in stack || Release in stack || Stop in stack
  {
    if stack != [] {
      assert stack[0] in stack;
      match stack[0]
      case Body =>
      case Deliver =>
      case Release =>
      case Stop =>
    }
  }

  /**
  `request_stop()` on the handle keeps no reference while it walks the registrations. In any run,
  such a call can have the shared state destroyed before it returns if and only if it is the first
  stop, the root has not completed and the root's body is not running below it. All three can be
  checked before the call.
  */
  lemma {:induction false} HandleStopIsUnsafeIff(es: seq<Event>)
    requires Enabled(Run(Init, es), RequestStop)
    ensures var s := Run(Init, es);
            (exists more :: DestroysUnder(s, more)) <==> Endangers(s)
  {
    RunKeepsInv(Init, es);
    var s := Run(Init, es);
    if Endangers(s) {
      var more := DangerDestroys(s);
      assert DestroysUnder(s, more);
    } else {
      forall more
        ensures !DestroysUnder(s, more)
      {
        NoDangerNoDestruction(s, more);
      }
    }
  }

  /** A task has joined the root through the handle it owns, and stops it. */
  const Walking: State :=
    Init.(joiners := [7], stopRequested := true, refs := {Public, Baton, Awaiter(7)}, stack := [Stop], suspended := [7])

  /** The root has completed inside that stop, and the task has been resumed. */
  const Woken: State :=
    Walking.(root := Done(None), baton := false, completed := true, joiners := [], stack := [Stop, Deliver],
             resumed := [7])

  /**
  A run of that kind: the stop completes the root, the joiner it resumes drops its
  awaiter and the handle, and the baton's reference was the last one.
  */
  lemma JoinerDropsTheHandleUnderTheStop()
    ensures Step(Step(Step(Init, MakeAwaiter(7)), Join(7)), RequestStop) == Walking
    ensures Step(Step(Step(Walking, ResumeRoot), Finish(None)), ResumeJoiner) == Woken
    ensures var t := Step(Step(Step(Woken, DropAwaiter(7)), BeginRelease), EndRelease);
            var u := Step(Step(t, EndResuming), EndDelivery);
            u.destroyed && u.stack == [Stop] && Enabled(u, EndStop)
  {
    JoinedAndStopped();
    CompletedUnderTheStop();
    DroppedByTheJoiner();
    EndedByTheBaton();
  }

  lemma JoinedAndStopped()
    ensures Step(Step(Step(Init, MakeAwaiter(7)), Join(7)), RequestStop) == Walking
  {
    var made := Init.(refs := {Public, Baton, Awaiter(7)});
    assert Step(Init, MakeAwaiter(7)) == made;
    var joined := made.(joiners := [7], suspended := [7]);
    assert Step(made, Join(7)) == joined;
    assert [] + [Stop] == [Stop];
  }

  lemma CompletedUnderTheStop()
    ensures Step(Step(Step(Walking, ResumeRoot), Finish(None)), ResumeJoiner) == Woken
  {
    var running := Walking.(stack := [Stop, Body]);
    assert Step(Walking, ResumeRoot) == running;
    assert Below(running) == [Stop];
    var delivering := Woken.(resumed := [], delivering := [7]);
    assert Step(running, Finish(None)) == delivering;
    assert [7][1..] == [];
  }

  lemma DroppedByTheJoiner()
    ensures var t := Step(Step(Step(Woken, DropAwaiter(7)), BeginRelease), EndRelease);
            t == Woken.(refs := {Baton})
  {
    var dropped := Woken.(refs := {Public, Baton});
    assert {Public, Baton, Awaiter(7)} - {Awaiter(7)} == {Public, Baton};
    assert Step(Woken, DropAwaiter(7)) == dropped;
    var releasing := dropped.(refs := {Baton, Releasing}, stack := [Stop, Deliver, Release]);
    assert {Public, Baton} - {Public} + {Releasing} == {Baton, Releasing};
    assert Step(dropped, BeginRelease) == releasing;
    assert Below(releasing) == [Stop, Deliver] && {Baton, Releasing} - {Releasing} == {Baton};
  }

  lemma EndedByTheBaton()
    ensures var u := Step(Step(Woken.(refs := {Baton}), EndResuming), EndDelivery);
            u.destroyed && u.stack == [Stop] && Enabled(u, EndStop)
  {
    var routed := Woken.(refs := {Baton}, routed := true);
    assert Step(Woken.(refs := {Baton}), EndResuming) == routed;
    assert Below(routed) == [Stop] && {Baton} - {Baton} == {};
  }

  lemma RunOneMore(s: State, es: seq<Event>, e: Event)
    ensures Run(s, es + [e]) == Step(Run(s, es), e)
  {
    assert (es + [e])[..|es|] == es;
  }

  lemma {:induction false} RunConcat(s: State, a: seq<Event>, b: seq<Event>)
    ensures Run(s, a + b) == Run(Run(s, a), b)
    decreases |b|
  {
    if b == [] {
      assert a + b == a;
    } else {
      var front := b[..|b| - 1];
      assert (a + b)[..|a + b| - 1] == a + front;
      RunConcat(s, a, front);
    }
  }

  lemma PushedTop(s: State, stack: seq<Frame>, f: Frame)
    requires s.stack == stack + [f]
    ensures Top(s) == Some(f) && Below(s) == stack
  {
  }

  lemma ReleaseFields(s: State)
    ensures var t := StartRelease(s);
            && t.root == s.root && t.joiners == s.joiners && t.baton == s.baton && t.completed == s.completed
            && t.delivering == s.delivering && t.routed == s.routed && t.resumed == s.resumed
            && t.observed == s.observed && t.abandoned == (s.abandoned || !s.completed)
            && t.stopRequested == (s.stopRequested || !s.completed)
            && t.refs == s.refs - {Public} + {Releasing}
            && t.stack == s.stack + [Release] + (if s.completed || s.stopRequested then [] else [Stop])
            && t.reported == (s.reported || (s.completed && Failed(s) && !s.observed))
  {
  }

  lemma Finished(s: State, failure: Option<Failure>)
    requires Reachable(s) && Top(s) == Some(Body)
    ensures s.root.Running? && !s.routed && Step(s, Finish(failure)) == FinishRoot(s, failure)
  {
    ReachableInv(s);
    TopIsOnTheStack(s);
  }

  lemma HandleKeepsTheState(s: State)
    requires Reachable(s) && Public in s.refs
    ensures !s.destroyed
  {
    ReachableInv(s);
  }

  lemma NobodyQueues(s: State)
    requires Reachable(s) && s.completed
    ensures s.joiners == []
  {
    ReachableInv(s);
  }

  lemma StopWasRequested(s: State)
    requires Reachable(s) && Top(s) == Some(Stop)
    ensures s.stopRequested
  {
    ReachableInv(s);
    TopIsOnTheStack(s);
  }

  /** Some run leads to the state. */
  ghost predicate Reachable(s: State) {
    exists es :: Run(Init, es) == s
  }

  lemma ReachableInv(s: State)
    requires Reachable(s)
    ensures Inv(s)
  {
    var es :| Run(Init, es) == s;
    RunKeepsInv(Init, es);
  }

  lemma ReachesNext(s: State, e: Event)
    requires Reachable(s)
    ensures Reachable(Step(s, e))
  {
    var es :| Run(Init, es) == s;
    RunOneMore(Init, es, e);
  }

  // ----- The state object -----

  datatype JoinAnswer = Rejected | Continues | Suspends

  datatype Observation = NotCompleted | NoFailure | Rethrown(failure: Failure)

  /** What a resumed joiner may do with the state it shares. */
  datatype Action =
    | JoinAgain(continuation: Continuation)
    | JoinLater(continuation: Continuation)
    | DropJoin(continuation: Continuation)
    | Look
    | AskStop
    | ReleaseHandle

  /** A joiner runs on top of the delivery that resumed it. */
  predicate InJoiner(s: State) {
    Top(s) == Some(Deliver) && !s.routed && s.resumed != []
  }

  /** `spawn_handle::state`. The ghost `m` adds the references, the frames and the history to its fields. */
  class RootState {
    var root: Root
    var joiners: seq<Continuation>
    var baton: bool
    var completed: bool
    var publicHandleAbandoned: bool
    var failureObserved: bool
    var failureReported: bool
    var stopRequested: bool
    // references held outside: the public handle, and the join awaiters
    var handle: bool
    var awaiters: set<Continuation>
    ghost var m: State

    ghost predicate Valid()
      reads this
    {
      && Reachable(m)
      && (completed <==> root.Done?)
      && m.root == root && m.joiners == joiners && m.baton == baton && m.completed == completed
      && m.abandoned == publicHandleAbandoned && m.observed == failureObserved && m.reported == failureReported
      && m.stopRequested == stopRequested
      && (Public in m.refs <==> handle)
      && (forall c :: Awaiter(c) in m.refs <==> c in awaiters)
    }

    constructor ()
      ensures Valid() && m == Init
    {
      root, joiners, baton := Running, [], true;
      completed, publicHandleAbandoned, failureObserved, failureReported := false, false, false, false;
      stopRequested, handle, awaiters := false, true, {};
      m := Init;
      new;
      assert Run(Init, []) == m;
    }

    /** `join()`: an awaiter shares the state and registers nothing yet. */
    method MakeJoinAwaiter(continuation: Continuation)
      requires Valid() && UserCode(m) && handle && continuation !in awaiters
      modifies this
      ensures Valid() && m == Step(old(m), MakeAwaiter(continuation))
      ensures awaiters == old(awaiters) + {continuation} && joiners == old(joiners)
      ensures completed == old(completed) && root == old(root) && handle
      ensures publicHandleAbandoned == old(publicHandleAbandoned)
    {
      ReachesNext(m, MakeAwaiter(continuation));
      m := Step(m, MakeAwaiter(continuation));
      awaiters := awaiters + {continuation};
    }

    /** Awaits an awaiter, whether or not the handle is still there. */
    method AwaitJoin(continuation: Continuation, sameLoop: bool) returns (answer: JoinAnswer)
      requires Valid() && (completed || Enabled(m, Join(continuation)))
      modifies this
      ensures Valid() && m == (if sameLoop then Step(old(m), Join(continuation)) else old(m))
      ensures answer == (if !sameLoop then Rejected else if completed then Continues else Suspends)
      ensures answer == Suspends <==> joiners == old(joiners) + [continuation]
      ensures completed == old(completed) && root == old(root) && handle == old(handle)
      ensures publicHandleAbandoned == old(publicHandleAbandoned)
    {
      if !sameLoop {
        return Rejected;
      }
      ReachesNext(m, Join(continuation));
      m := Step(m, Join(continuation));
      if completed {
        return Continues;
      }
      joiners := joiners + [continuation];
      answer := Suspends;
    }

    /** The awaiting task is past the join, or the awaiter was never awaited. */
    method DropJoinAwaiter(continuation: Continuation)
      requires Valid() && Enabled(m, DropAwaiter(continuation))
      modifies this
      ensures Valid() && m == Step(old(m), DropAwaiter(continuation))
      ensures awaiters == old(awaiters) - {continuation} && joiners == old(joiners)
      ensures completed == old(completed) && root == old(root) && handle == old(handle)
      ensures publicHandleAbandoned == old(publicHandleAbandoned)
    {
      ReachesNext(m, DropAwaiter(continuation));
      m := Step(m, DropAwaiter(continuation));
      awaiters := awaiters - {continuation};
    }

    /** `rethrow_if_failed` and `take_result`: seeing the failure counts as its destination. */
    method ObserveFailure() returns (seen: Observation)
      requires Valid() && UserCode(m) && handle
      modifies this
      ensures Valid() && m == Step(old(m), Observe)
      ensures seen == (if !completed then NotCompleted
                       else if root.failure == None then NoFailure else Rethrown(root.failure.value))
      ensures seen.Rethrown? ==> failureObserved
      ensures completed == old(completed) && root == old(root) && handle == old(handle)
      ensures publicHandleAbandoned == old(publicHandleAbandoned)
    {
      ReachesNext(m, Observe);
      m := Step(m, Observe);
      if !completed {
        return NotCompleted;
      }
      if root.failure == None {
        return NoFailure;
      }
      failureObserved := true;
      seen := Rethrown(root.failure.value);
    }

    /** The flag is set before the handler runs, so a reentrant handler cannot report again. */
    method ReportUnobservedFailureIfNeeded() returns (report: Option<Failure>)
      requires root.Done?
      modifies this`failureReported
      ensures report == (if failureObserved || old(failureReported) then None else root.failure)
      ensures failureReported <==> old(failureReported) || report.Some?
    {
      if root.failure == None || failureObserved || failureReported {
        return None;
      }
      failureReported := true;
      report := root.failure;
    }

    /** `cancellation_state::request_stop()` up to its walk, which only the first call makes. */
    method EnterStop() returns (walks: bool)
      requires Valid() && UserCode(m) && handle
      modifies this
      ensures Valid() && m == Step(old(m), RequestStop) && m == RaiseStop(old(m)) && stopRequested
      ensures walks == !old(stopRequested) && m.stack == (if walks then old(m.stack) + [Stop] else old(m.stack))
      ensures completed == old(completed) && root == old(root) && handle
      ensures publicHandleAbandoned == old(publicHandleAbandoned)
    {
      ReachesNext(m, RequestStop);
      m := Step(m, RequestStop);
      walks := !stopRequested;
      stopRequested := true;
    }

    /** The walk has come to its end. */
    method LeaveStop()
      requires Valid() && Top(m) == Some(Stop)
      modifies this`m
      ensures Valid() && m == Step(old(m), EndStop) && m == old(m).(stack := Below(old(m)))
    {
      ReachesNext(m, EndStop);
      m := Step(m, EndStop);
    }

    /** `release()` up to the end of its report or the start of its stop. */
    method EnterRelease() returns (walks: bool)
      requires Valid() && UserCode(m) && handle
      modifies this
      ensures Valid() && m == Step(old(m), BeginRelease) && !handle
      ensures walks == (!completed && !old(stopRequested))
      ensures m.stack == old(m.stack) + [Release] + (if walks then [Stop] else [])
      ensures m.delivering == old(m.delivering) && m.routed == old(m.routed) && m.resumed == old(m.resumed)
      ensures root == old(root) && completed == old(completed)
      ensures publicHandleAbandoned == (old(publicHandleAbandoned) || !completed)
    {
      ReleaseFields(m);
      ReachesNext(m, BeginRelease);
      m := Step(m, BeginRelease);
      handle := false;
      walks := ReportOrAbandon();
    }

    /** A completed root's failure is reported; any other root is abandoned and stopped. */
    method ReportOrAbandon() returns (walks: bool)
      requires completed <==> root.Done?
      modifies this`publicHandleAbandoned, this`stopRequested, this`failureReported
      ensures walks == (!completed && !old(stopRequested))
      ensures publicHandleAbandoned == (old(publicHandleAbandoned) || !completed)
      ensures stopRequested == (old(stopRequested) || !completed)
      ensures failureReported ==
              (old(failureReported) || (completed && root.failure.Some? && !failureObserved))
    {
      if completed {
        var report := ReportUnobservedFailureIfNeeded();
        return false;
      }
      publicHandleAbandoned := true;
      walks := !stopRequested;
      stopRequested := true;
    }

    /** The local reference of `release()` goes out of scope. */
    method LeaveRelease()
      requires Valid() && Enabled(m, EndRelease)
      modifies this`m
      ensures Valid() && m == Step(old(m), EndRelease) && m == Drop(old(m).(stack := Below(old(m))), Releasing)
      ensures Failed(m) && !handle && !Delivering(m) ==> failureObserved != failureReported
    {
      ReachesNext(m, EndRelease);
      m := Step(m, EndRelease);
      ReachableInv(m);
    }

    /** One call made by a resumed joiner, while `pending` are still to be resumed. */
    method Act(a: Action, pending: seq<Continuation>) returns (ghost trace: seq<Event>)
      requires Valid() && completed && InJoiner(m) && m.delivering == pending
      modifies this
      ensures Valid() && m == Run(old(m), trace) && InJoiner(m)
      ensures m.stack == old(m.stack) && m.delivering == old(m.delivering)
      ensures root == old(root) && completed && publicHandleAbandoned == old(publicHandleAbandoned)
      ensures old(handle) || !handle
    {
      trace := [];
      match a
      case JoinAgain(c) =>
        if handle && c !in awaiters {
          trace := JoinAnew(c);
        }
      case JoinLater(c) =>
        trace := JoinPast(c);
      case DropJoin(c) =>
        if c in awaiters && c !in pending {
          trace := DropPastJoin(c);
        }
      case Look =>
        if handle {
          trace := LookAtFailure();
        }
      case AskStop =>
        if handle {
          trace := StopCompleted();
        }
      case ReleaseHandle =>
        if handle {
          trace := ReleaseCompleted();
        }
    }

    /** `release()` of a completed root. */
    method ReleaseCompleted() returns (ghost trace: seq<Event>)
      requires Valid() && completed && InJoiner(m) && handle
      modifies this
      ensures Valid() && m == Run(old(m), trace) && InJoiner(m) && !handle
      ensures m.stack == old(m.stack) && m.delivering == old(m.delivering)
      ensures root == old(root) && completed && publicHandleAbandoned == old(publicHandleAbandoned)
    {
      RunOneMore(m, [], BeginRelease);
      RunOneMore(m, [] + [BeginRelease], EndRelease);
      trace := [] + [BeginRelease] + [EndRelease];
      var walks := EnterRelease();
      PushedTop(m, old(m.stack), Release);
      LeaveRelease();
    }

    /** `request_stop()` once nothing is registered any more. */
    method StopCompleted() returns (ghost trace: seq<Event>)
      requires Valid() && completed && InJoiner(m) && handle
      modifies this
      ensures Valid() && m == Run(old(m), trace) && InJoiner(m) && handle
      ensures m.stack == old(m.stack) && m.delivering == old(m.delivering)
      ensures root == old(root) && completed && publicHandleAbandoned == old(publicHandleAbandoned)
    {
      RunOneMore(m, [], RequestStop);
      trace := [] + [RequestStop];
      var walks := EnterStop();
      if walks {
        RunOneMore(old(m), trace, EndStop);
        trace := trace + [EndStop];
        PushedTop(m, old(m.stack), Stop);
        LeaveStop();
      }
    }

    /** An awaiter goes with the task that waited on it. */
    method DropPastJoin(continuation: Continuation) returns (ghost trace: seq<Event>)
      requires Valid() && completed && InJoiner(m) && continuation in awaiters && continuation !in m.delivering
      modifies this
      ensures Valid() && m == Run(old(m), trace) && InJoiner(m) && handle == old(handle)
      ensures m.stack == old(m.stack) && m.delivering == old(m.delivering)
      ensures root == old(root) && completed && publicHandleAbandoned == old(publicHandleAbandoned)
    {
      NobodyQueues(m);
      RunOneMore(m, [], DropAwaiter(continuation));
      trace := [] + [DropAwaiter(continuation)];
      DropJoinAwaiter(continuation);
    }

    method JoinPast(continuation: Continuation) returns (ghost trace: seq<Event>)
      requires Valid() && completed && InJoiner(m)
      modifies this
      ensures Valid() && m == Run(old(m), trace) && InJoiner(m) && handle == old(handle)
      ensures m.stack == old(m.stack) && m.delivering == old(m.delivering)
      ensures root == old(root) && completed && publicHandleAbandoned == old(publicHandleAbandoned)
    {
      RunOneMore(m, [], Join(continuation));
      trace := [] + [Join(continuation)];
      var answer := AwaitJoin(continuation, true);
    }

    method LookAtFailure() returns (ghost trace: seq<Event>)
      requires Valid() && completed && InJoiner(m) && handle
      modifies this
      ensures Valid() && m == Run(old(m), trace) && InJoiner(m) && handle
      ensures m.stack == old(m.stack) && m.delivering == old(m.delivering)
      ensures root == old(root) && completed && publicHandleAbandoned == old(publicHandleAbandoned)
    {
      RunOneMore(m, [], Observe);
      trace := [] + [Observe];
      var seen := ObserveFailure();
    }

    /** A new awaiter, awaited at once. */
    method JoinAnew(continuation: Continuation) returns (ghost trace: seq<Event>)
      requires Valid() && completed && InJoiner(m) && handle && continuation !in awaiters
      modifies this
      ensures Valid() && m == Run(old(m), trace) && InJoiner(m) && handle
      ensures m.stack == old(m.stack) && m.delivering == old(m.delivering)
      ensures root == old(root) && completed && publicHandleAbandoned == old(publicHandleAbandoned)
    {
      RunOneMore(m, [], MakeAwaiter(continuation));
      RunOneMore(m, [] + [MakeAwaiter(continuation)], Join(continuation));
      trace := [] + [MakeAwaiter(continuation)] + [Join(continuation)];
      MakeJoinAwaiter(continuation);
      var answer := AwaitJoin(continuation, true);
    }

    /** Any number of such calls. */
    method Perform(actions: seq<Action>, pending: seq<Continuation>) returns (ghost trace: seq<Event>)
      requires Valid() && completed && InJoiner(m) && m.delivering == pending
      modifies this
      ensures Valid() && m == Run(old(m), trace) && InJoiner(m)
      ensures m.stack == old(m.stack) && m.delivering == old(m.delivering)
      ensures root == old(root) && completed && publicHandleAbandoned == old(publicHandleAbandoned)
      ensures old(handle) || !handle
    {
      trace := [];
      for i := 0 to |actions|
        invariant Valid() && m == Run(old(m), trace) && InJoiner(m)
        invariant m.stack == old(m.stack) && m.delivering == old(m.delivering)
        invariant root == old(root) && completed && publicHandleAbandoned == old(publicHandleAbandoned)
        invariant old(handle) || !handle
      {
        ghost var more := Act(actions[i], pending);
        RunConcat(old(m), trace, more);
        trace := trace + more;
      }
    }

    /**
    The root's running body reaches its final suspension point, whose callback hands over to the
    baton, and the baton runs `deliver_completion()` to its end. `others(i)` is what the i-th
    joiner does.
    */
    method CompleteRoot(failure: Option<Failure>, others: nat -> seq<Action>) returns (ghost trace: seq<Event>)
      requires Valid() && Top(m) == Some(Body)
      modifies this
      ensures Valid() && m == Run(old(m), trace)
      ensures root == Done(failure) && completed && joiners == [] && m.stack == Below(old(m))
      ensures m.resumed == m.suspended
      ensures publicHandleAbandoned == old(publicHandleAbandoned) && (old(handle) || !handle)
      ensures publicHandleAbandoned ==> failureReported == failure.Some?
    {
      RunOneMore(m, [], Finish(failure));
      trace := [] + [Finish(failure)];
      var detached := DetachJoiners(failure);
      PushedTop(m, Below(old(m)), Deliver);
      ghost var resuming := ResumeJoiners(detached, others);
      RunConcat(old(m), trace, resuming);
      trace := trace + resuming;
      PushedTop(m, Below(old(m)), Deliver);
      ghost var ending := EndTheDelivery();
      RunConcat(old(m), trace, ending);
      trace := trace + ending;
    }

    /** The root's final suspension point and the detaching of its joiners. */
    method DetachJoiners(failure: Option<Failure>) returns (detached: seq<Continuation>)
      requires Valid() && Top(m) == Some(Body)
      modifies this
      ensures Valid() && m == Step(old(m), Finish(failure))
      ensures root == Done(failure) && completed && joiners == [] && detached == old(joiners) == m.delivering
      ensures m.stack == Below(old(m)) + [Deliver] && !m.routed
      ensures handle == old(handle) && publicHandleAbandoned == old(publicHandleAbandoned)
    {
      Finished(m, failure);
      ReachesNext(m, Finish(failure));
      m := FinishRoot(m, failure);
      root, baton := Done(failure), false;
      completed := true;
      detached := joiners;
      joiners := [];
    }

    /** Every continuation was detached before the first one is resumed. */
    method ResumeJoiners(detached: seq<Continuation>, others: nat -> seq<Action>) returns (ghost trace: seq<Event>)
      requires Valid() && completed && Top(m) == Some(Deliver) && !m.routed && m.delivering == detached
      modifies this
      ensures Valid() && m == Run(old(m), trace)
      ensures m.stack == old(m.stack) && !m.routed && m.delivering == []
      ensures root == old(root) && completed && publicHandleAbandoned == old(publicHandleAbandoned)
      ensures old(handle) || !handle
    {
      trace := [];
      for i := 0 to |detached|
        invariant Valid() && m == Run(old(m), trace)
        invariant m.stack == old(m.stack) && !m.routed && m.delivering == detached[i..]
        invariant root == old(root) && completed && publicHandleAbandoned == old(publicHandleAbandoned)
        invariant old(handle) || !handle
      {
        ghost var more := ResumeOne(detached[i..], others(i));
        RunConcat(old(m), trace, more);
        trace := trace + more;
      }
    }

    method ResumeOne(pending: seq<Continuation>, actions: seq<Action>) returns (ghost trace: seq<Event>)
      requires Valid() && completed && Top(m) == Some(Deliver) && !m.routed
      requires m.delivering == pending && pending != []
      modifies this
      ensures Valid() && m == Run(old(m), trace)
      ensures m.stack == old(m.stack) && !m.routed && m.delivering == pending[1..]
      ensures root == old(root) && completed && publicHandleAbandoned == old(publicHandleAbandoned)
      ensures old(handle) || !handle
    {
      RunOneMore(m, [], ResumeJoiner);
      ReachesNext(m, ResumeJoiner);
      m := Step(m, ResumeJoiner);
      ghost var more := Perform(actions, pending[1..]);
      RunConcat(old(m), [] + [ResumeJoiner], more);
      trace := [] + [ResumeJoiner] + more;
    }

    /** From the last joiner to the end of the baton. */
    method EndTheDelivery() returns (ghost trace: seq<Event>)
      requires Valid() && completed && Enabled(m, EndResuming)
      modifies this
      ensures Valid() && m == Run(old(m), trace)
      ensures root == old(root) && completed && joiners == [] && m.stack == Below(old(m))
      ensures m.resumed == m.suspended
      ensures publicHandleAbandoned == old(publicHandleAbandoned) && handle == old(handle)
      ensures publicHandleAbandoned ==> failureReported == root.failure.Some?
    {
      RunOneMore(m, [], EndResuming);
      RunOneMore(m, [] + [EndResuming], EndDelivery);
      trace := [] + [EndResuming] + [EndDelivery];
      RouteFailure();
      DropBaton();
    }

    /** The tail of `deliver_completion()`, after the last joiner. */
    method RouteFailure()
      requires Valid() && completed && Enabled(m, EndResuming)
      modifies this
      ensures Valid() && m == Step(old(m), EndResuming)
      ensures root == old(root) && completed && joiners == [] && m.stack == old(m.stack) && m.routed
      ensures m.resumed == m.suspended
      ensures publicHandleAbandoned == old(publicHandleAbandoned) && handle == old(handle)
      ensures publicHandleAbandoned ==> failureReported == root.failure.Some?
    {
      ReachesNext(m, EndResuming);
      m := Step(m, EndResuming);
      ReachableInv(m);
      if publicHandleAbandoned {
        var report := ReportUnobservedFailureIfNeeded();
      }
    }

    /** The baton ends and gives up its reference. */
    method DropBaton()
      requires Valid() && Enabled(m, EndDelivery)
      modifies this`m
      ensures Valid() && m == Step(old(m), EndDelivery) && m == Drop(old(m).(stack := Below(old(m))), Baton)
    {
      ReachesNext(m, EndDelivery);
      m := Step(m, EndDelivery);
    }

    /**
    The walk of the first stop. A callback may resume the root and let it complete right there;
    `completes` says whether and how.
    */
    method Walk(completes: Option<Option<Failure>>, others: nat -> seq<Action>) returns (ghost trace: seq<Event>)
      requires Valid() && Top(m) == Some(Stop)
      requires completes.Some? ==> Body !in m.stack
      modifies this
      ensures Valid() && m == Run(old(m), trace)
      ensures m.stack == Below(old(m)) && stopRequested && (old(handle) || !handle)
      ensures completed <==> old(completed) || completes.Some?
      ensures completed && !old(completed) ==> root == Done(completes.value) && m.resumed == m.suspended
      ensures completed == old(completed) ==> m == old(m).(stack := Below(old(m)))
      ensures publicHandleAbandoned == old(publicHandleAbandoned)
    {
      trace := [];
      if !completed && completes.Some? {
        trace := ResumeAndComplete(completes.value, others);
      }
      RunOneMore(old(m), trace, EndStop);
      trace := trace + [EndStop];
      StopWasRequested(m);
      LeaveStop();
    }

    method ResumeBody()
      requires Valid() && Enabled(m, ResumeRoot)
      modifies this`m
      ensures Valid() && m == Step(old(m), ResumeRoot) && m.stack == old(m.stack) + [Body]
    {
      ReachesNext(m, ResumeRoot);
      m := Step(m, ResumeRoot);
    }

    /** A callback of the walk resumes the root, which completes without suspending again. */
    method ResumeAndComplete(failure: Option<Failure>, others: nat -> seq<Action>) returns (ghost trace: seq<Event>)
      requires Valid() && !completed && Enabled(m, ResumeRoot)
      modifies this
      ensures Valid() && m == Run(old(m), trace)
      ensures root == Done(failure) && completed && joiners == [] && m.stack == old(m.stack)
      ensures m.resumed == m.suspended
      ensures publicHandleAbandoned == old(publicHandleAbandoned) && (old(handle) || !handle)
      ensures publicHandleAbandoned ==> failureReported == failure.Some?
    {
      RunOneMore(m, [], ResumeRoot);
      ResumeBody();
      PushedTop(m, old(m.stack), Body);
      ghost var more := CompleteRoot(failure, others);
      RunConcat(old(m), [] + [ResumeRoot], more);
      trace := [] + [ResumeRoot] + more;
    }

    /**
    `request_stop()` on the handle. Only the first one walks, and the walk keeps no reference: the
    state is gone when it ends only if the call was one of those that endanger it.
    */
    method StopThroughHandle(completes: Option<Option<Failure>>, others: nat -> seq<Action>)
      returns (ghost trace: seq<Event>)
      requires Valid() && UserCode(m) && handle
      requires completes.Some? ==> Body !in m.stack
      modifies this
      ensures Valid() && m == Run(old(m), trace) && stopRequested
      ensures m.stack == old(m.stack)
      ensures completed <==> old(completed) || (completes.Some? && !old(stopRequested))
      ensures completed && !old(completed) ==> root == Done(completes.value) && m.resumed == m.suspended
      ensures m.destroyed ==> Endangers(old(m))
    {
      HandleKeepsTheState(m);
      RunOneMore(m, [], RequestStop);
      trace := [] + [RequestStop];
      var walks := EnterStop();
      if walks {
        PushedTop(m, old(m.stack), Stop);
        ghost var more := Walk(completes, others);
        RunConcat(old(m), trace, more);
        trace := trace + more;
      }
    }

    /**
    `release()`: dropping the handle of an uncompleted root raises stop, and a stop callback
    may complete the root right there. The local reference keeps the state until the end.
    */
    method ReleasePublicHandle(completes: Option<Option<Failure>>, others: nat -> seq<Action>)
      returns (ghost trace: seq<Event>)
      requires Valid() && UserCode(m) && handle
      requires completes.Some? ==> Body !in m.stack
      modifies this
      ensures Valid() && m == Run(old(m), trace) && !handle
      ensures m.stack == old(m.stack)
      ensures completed <==> old(completed) || (completes.Some? && !old(stopRequested))
      ensures Failed(m) && !Delivering(m) ==> failureObserved != failureReported
    {
      trace := ReleaseAndStop(completes, others);
      PushedTop(m, old(m.stack), Release);
      RunOneMore(old(m), trace, EndRelease);
      trace := trace + [EndRelease];
      LeaveRelease();
    }

    /** `release()` up to the end of its local reference, with the walk of the stop it raises. */
    method ReleaseAndStop(completes: Option<Option<Failure>>, others: nat -> seq<Action>)
      returns (ghost trace: seq<Event>)
      requires Valid() && UserCode(m) && handle
      requires completes.Some? ==> Body !in m.stack
      modifies this
      ensures Valid() && m == Run(old(m), trace) && !handle
      ensures m.stack == old(m.stack) + [Release]
      ensures completed <==> old(completed) || (completes.Some? && !old(stopRequested))
    {
      RunOneMore(m, [], BeginRelease);
      trace := [] + [BeginRelease];
      var walks := EnterRelease();
      if walks {
        PushedTop(m, old(m.stack) + [Release], Stop);
        ghost var more := Walk(completes, others);
        RunConcat(old(m), trace, more);
        trace := trace + more;
      }
    }
  }
}
