/**
`task_scope`: fail-fast structured concurrency. A failing child raises stop, and stop may
complete its siblings synchronously, inside the failing child's own completion callback.

User code is any sequence of events, taken while an explicit stack of active frames exists:
a child's body that is running, a completion callback of the scope, a `request_stop()` called
directly on the scope, or the joiner once it has been handed out. Frames are pushed and popped
only at the top. A `request_stop()` that is under way still walks the scope's registrations
after each callback, so it goes on using the scope until it returns.
*/
module TaskScope {

  import opened Options

  type Failure = nat
  type Continuation = nat

  datatype Outcome = Ok | Failed(failure: Failure)

  datatype Frame =
    | Body(child: nat)
    | Completion(child: nat, stopping: bool)
    | DirectStop
    | Joiner

  /** `Ready` lies between the hand-out of the joiner and its `await_resume()`. */
  datatype Join = Pending | Ready | Finished(rethrown: Option<Failure>)

  datatype State = State(
    completed: seq<bool>,
    activeChildren: nat,
    completionDepth: nat,
    firstFailure: Option<Failure>,
    joinStarted: bool,
    joinContinuation: Option<Continuation>,
    stopRequested: bool,
    // frames on the stack, innermost last
    stack: seq<Frame>,
    join: Join,
    destroyed: bool,
    // history: outcomes in order of completion, and the stack below each hand-out of the joiner
    outcomes: seq<Outcome>,
    handOuts: seq<seq<Frame>>,
    // the scope was destroyed inside a stop of its own; that stop has used it since
    destroyedInside: bool,
    usedAfterwards: bool)

  datatype Event =
    | Spawn(valid: bool, allocates: bool)
    | Resume(child: nat)
    | Suspend
    | Complete(outcome: Outcome)
    | EndCompletion
    | StartJoin(continuation: Continuation, sameLoop: bool)
    | FinishJoin
    | RequestStop
    | EndStop
    | Destroy

  const Init: State := State([], 0, 0, None, false, None, false, [], Pending, false, [], [], false, false)

  function Top(s: State): Option<Frame> {
    if s.stack == [] then None else Some(s.stack[|s.stack| - 1])
  }

  function Below(s: State): seq<Frame> {
    if s.stack == [] then [] else s.stack[..|s.stack| - 1]
  }

  /** Code outside the library is running: the event loop's caller, a child's body, or the joiner. */
  predicate UserCode(s: State) {
    Top(s) == None || Top(s).value.Body? || Top(s).value.Joiner?
  }

  /** A frame that may resume children: user code, or a stop that is running callbacks. */
  predicate MayResume(s: State) {
    UserCode(s) || Top(s).value == DirectStop || (Top(s).value.Completion? && Top(s).value.stopping)
  }

  /**
  A joiner that has been handed out, or that did not have to wait, runs `finish_join()` before
  anything else can happen. A scope may be destroyed by user code once it has no children.
  */
  predicate Enabled(s: State, e: Event) {
    if s.join == Ready then e.FinishJoin? else
    match e
    case Spawn(_, _) => UserCode(s) && !s.destroyed
    case Resume(c) =>
      MayResume(s) && c < |s.completed| && !s.completed[c] && Body(c) !in s.stack
    case Suspend => Top(s) != None && (Top(s).value.Body? || Top(s).value.Joiner?)
    case Complete(_) =>
      Top(s) != None && Top(s).value.Body? && Top(s).value.child < |s.completed| && s.activeChildren > 0
    case EndCompletion => Top(s) != None && Top(s).value.Completion? && s.completionDepth > 0
    case StartJoin(_, _) => UserCode(s) && !s.destroyed
    case FinishJoin => false
    case RequestStop => UserCode(s) && !s.destroyed
    case EndStop => Top(s) == Some(DirectStop)
    case Destroy => UserCode(s) && !s.destroyed && s.completed == [] && s.joinContinuation == None
  }

  /** `child_completed` up to and including the point where it raises stop. */
  function BeginCompletion(s: State, outcome: Outcome): State
    requires Enabled(s, Complete(outcome))
  {
    var c := Top(s).value.child;
    var first := s.firstFailure == None && outcome.Failed?;
    s.(completed := s.completed[c := true],
       activeChildren := s.activeChildren - 1,
       completionDepth := s.completionDepth + 1,
       firstFailure := if first then Some(outcome.failure) else s.firstFailure,
       stopRequested := s.stopRequested || first,
       stack := Below(s) + [Completion(c, first && !s.stopRequested)],
       outcomes := s.outcomes + [outcome])
  }

  /** `child_completed` after stop has returned. */
  function LeaveCompletion(s: State): State
    requires Enabled(s, EndCompletion)
  {
    var t := s.(completionDepth := s.completionDepth - 1, stack := Below(s));
    if t.activeChildren == 0 && t.joinContinuation.Some? && t.completionDepth == 0
    then t.(joinContinuation := None, join := Ready, handOuts := t.handOuts + [t.stack], stack := t.stack + [Joiner])
    else t
  }

  function Step(s: State, e: Event): State {
    if !Enabled(s, e) then s else
    match e
    case Spawn(valid, allocates) =>
      if s.joinStarted || !valid || !allocates then s
      else s.(completed := s.completed + [false], activeChildren := s.activeChildren + 1,
              stack := s.stack + [Body(|s.completed|)])
    case Resume(c) => s.(stack := s.stack + [Body(c)])
    case Suspend => s.(stack := Below(s))
    case Complete(outcome) => BeginCompletion(s, outcome)
    case EndCompletion => LeaveCompletion(s)
    case StartJoin(c, sameLoop) =>
      if !sameLoop || s.joinStarted then s
      else if s.activeChildren == 0 then s.(joinStarted := true, join := Ready)
      else s.(joinStarted := true, joinContinuation := Some(c))
    case FinishJoin =>
      s.(completed := [], join := Finished(s.firstFailure), firstFailure := None)
    case RequestStop =>
      if s.stopRequested then s else s.(stopRequested := true, stack := s.stack + [DirectStop])
    case EndStop => s.(stack := Below(s), usedAfterwards := s.usedAfterwards || s.destroyed)
    case Destroy => s.(destroyed := true, destroyedInside := DirectStop in s.stack)
  }

  function Run(s: State, es: seq<Event>): State {
    if es == [] then s else Step(Run(s, es[..|es| - 1]), es[|es| - 1])
  }

  // ----- Counting -----

  function Uncompleted(completed: seq<bool>): nat {
    if completed == [] then 0
    else (if completed[0] then 0 else 1) + Uncompleted(completed[1..])
  }

  lemma {:induction false} UncompletedAppend(a: seq<bool>, b: seq<bool>)
    ensures Uncompleted(a + b) == Uncompleted(a) + Uncompleted(b)
  {
    if a == [] {
      assert a + b == b;
    } else {
      UncompletedAppend(a[1..], b);
      assert (a + b)[1..] == a[1..] + b;
    }
  }

  lemma UncompletedAt(completed: seq<bool>, c: nat)
    requires c < |completed| && !completed[c]
    ensures Uncompleted(completed) == Uncompleted(completed[c := true]) + 1
  {
    var a, b := completed[..c], completed[c + 1..];
    assert completed == a + ([false] + b);
    assert completed[c := true] == a + ([true] + b);
    UncompletedAppend(a, [false] + b);
    UncompletedAppend(a, [true] + b);
  }

  function CompletionFrames(stack: seq<Frame>): nat {
    if stack == [] then 0
    else CompletionFrames(stack[..|stack| - 1]) + (if stack[|stack| - 1].Completion? then 1 else 0)
  }

  lemma PushedFrame(stack: seq<Frame>, f: Frame)
    ensures CompletionFrames(stack + [f]) == CompletionFrames(stack) + (if f.Completion? then 1 else 0)
    ensures FramesOnce(stack + [f]) <==> FramesOnce(stack) && (f.Body? || f.DirectStop? ==> f !in stack)
  {
    assert (stack + [f])[..|stack|] == stack;
  }

  lemma {:induction false} NoCompletionFrames(stack: seq<Frame>)
    requires CompletionFrames(stack) == 0
    ensures forall i :: 0 <= i < |stack| ==> !stack[i].Completion?
  {
    if stack != [] {
      NoCompletionFrames(stack[..|stack| - 1]);
    }
  }

  /** The failure of the chronologically first child to complete with one. */
  function FirstFailureOf(outcomes: seq<Outcome>): Option<Failure> {
    if outcomes == [] then None
    else if outcomes[0].Failed? then Some(outcomes[0].failure)
    else FirstFailureOf(outcomes[1..])
  }

  lemma {:induction false} FirstFailureAppend(outcomes: seq<Outcome>, o: Outcome)
    ensures FirstFailureOf(outcomes + [o]) ==
            (if FirstFailureOf(outcomes).Some? then FirstFailureOf(outcomes)
             else if o.Failed? then Some(o.failure) else None)
  {
    if outcomes == [] {
      assert outcomes + [o] == [o];
    } else {
      assert (outcomes + [o])[1..] == outcomes[1..] + [o];
      FirstFailureAppend(outcomes[1..], o);
    }
  }

  lemma {:induction false} FirstFailureIsEarliest(outcomes: seq<Outcome>, i: nat)
    requires i < |outcomes| && outcomes[i].Failed? && forall j :: 0 <= j < i ==> outcomes[j].Ok?
    ensures FirstFailureOf(outcomes) == Some(outcomes[i].failure)
  {
    if i > 0 {
      FirstFailureIsEarliest(outcomes[1..], i - 1);
    }
  }

  // ----- The invariant -----

  predicate OnlyDirectStops(stack: seq<Frame>) {
    forall i :: 0 <= i < |stack| ==> stack[i] == DirectStop
  }

  /** No child's body is running, and no completion callback either. */
  predicate NoChildFrames(stack: seq<Frame>) {
    forall i :: 0 <= i < |stack| ==> stack[i].DirectStop? || stack[i].Joiner?
  }

  /** No child's body is running twice, and `request_stop()` is active at most once. */
  predicate FramesOnce(stack: seq<Frame>) {
    stack == [] ||
    var front, last := stack[..|stack| - 1], stack[|stack| - 1];
    FramesOnce(front) && (last.Body? || last.DirectStop? ==> last !in front)
  }

  predicate Running(completed: seq<bool>, f: Frame) {
    f.Body? ==> f.child < |completed| && !completed[f.child]
  }

  predicate AllRunning(stack: seq<Frame>, completed: seq<bool>) {
    forall f :: f in stack ==> Running(completed, f)
  }

  predicate FramesMatch(s: State) {
    && s.completionDepth == CompletionFrames(s.stack)
    && AllRunning(s.stack, s.completed)
    && FramesOnce(s.stack)
    && (DirectStop in s.stack ==> s.stopRequested)
  }

  predicate JoinMatches(s: State) {
    && (s.joinContinuation.Some? ==> s.joinStarted && s.join == Pending)
    && (s.join != Pending ==> s.joinStarted && s.activeChildren == 0 && NoChildFrames(s.stack))
    && (s.join == Pending ==> Joiner !in s.stack && s.handOuts == [])
    && (s.joinStarted && s.join == Pending ==>
          s.joinContinuation.Some? && (s.activeChildren > 0 || s.completionDepth > 0))
    && |s.handOuts| <= 1
    && (s.handOuts != [] ==> OnlyDirectStops(s.handOuts[0]))
  }

  predicate FailureMatches(s: State) {
    match s.join
    case Finished(rethrown) => rethrown == FirstFailureOf(s.outcomes) && s.completed == [] && s.firstFailure == None
    case _ => s.firstFailure == FirstFailureOf(s.outcomes)
  }

  predicate LifeMatches(s: State) {
    && (s.destroyed ==> s.completed == [] && s.joinContinuation == None)
    && (!s.destroyed ==> !s.destroyedInside && !s.usedAfterwards)
    && (s.destroyed && !s.destroyedInside ==> DirectStop !in s.stack && !s.usedAfterwards)
    && (s.destroyedInside ==> (s.usedAfterwards <==> DirectStop !in s.stack))
  }

  predicate Counted(s: State) {
    s.activeChildren == Uncompleted(s.completed)
  }

  predicate Inv(s: State) {
    Counted(s) && FramesMatch(s) && JoinMatches(s) && FailureMatches(s) && LifeMatches(s)
  }

  lemma StepKeepsInv(s: State, e: Event)
    requires Inv(s)
    ensures Inv(Step(s, e))
  {
    StepKeepsCount(s, e);
    StepKeepsFrames(s, e);
    StepKeepsJoin(s, e);
    StepKeepsFailure(s, e);
    StepKeepsLife(s, e);
  }

  /** A running body belongs to an uncompleted child, so someone is active. */
  lemma RunningBodyIsActive(s: State, c: nat)
    requires Counted(s) && FramesMatch(s) && Body(c) in s.stack
    ensures s.activeChildren > 0 && c < |s.completed| && !s.completed[c]
  {
    assert Running(s.completed, Body(c));
    UncompletedAt(s.completed, c);
  }

  lemma TopIsOnTheStack(s: State)
    requires s.stack != []
    ensures Top(s).value in s.stack && s.stack == Below(s) + [Top(s).value]
    ensures forall f :: f in Below(s) ==> f in s.stack
  {
  }

  lemma StepKeepsCount(s: State, e: Event)
    requires Counted(s) && FramesMatch(s) && JoinMatches(s)
    ensures Counted(Step(s, e))
  {
    if Enabled(s, e) {
      match e
      case Spawn(_, _) => UncompletedAppend(s.completed, [false]);
      case Complete(_) => CompleteKeepsCount(s, e);
      case _ =>
    }
  }

  lemma CompleteKeepsCount(s: State, e: Event)
    requires Counted(s) && FramesMatch(s) && e.Complete? && Enabled(s, e)
    ensures Counted(Step(s, e))
  {
    TopIsOnTheStack(s);
    assert Running(s.completed, Top(s).value);
    UncompletedAt(s.completed, Top(s).value.child);
  }

  lemma StepKeepsFrames(s: State, e: Event)
    requires Counted(s) && FramesMatch(s) && JoinMatches(s)
    ensures FramesMatch(Step(s, e))
  {
    if Enabled(s, e) {
      match e
      case Spawn(valid, allocates) => SpawnKeepsFrames(s, e);
      case Resume(c) => PushKeepsFrames(s, Body(c));
      case Suspend => PopKeepsFrames(s);
      case Complete(outcome) => CompleteKeepsFrames(s, outcome);
      case EndCompletion => LeaveKeepsFrames(s);
      case StartJoin(_, _) =>
      case FinishJoin => FinishKeepsFrames(s);
      case RequestStop => StopKeepsFrames(s);
      case EndStop => PopKeepsFrames(s);
      case Destroy =>
    }
  }

  lemma PushKeepsFrames(s: State, f: Frame)
    requires FramesMatch(s) && !f.Completion? && !f.DirectStop? && Running(s.completed, f) && f !in s.stack
    ensures FramesMatch(s.(stack := s.stack + [f]))
  {
    PushedFrame(s.stack, f);
  }

  lemma SpawnKeepsFrames(s: State, e: Event)
    requires FramesMatch(s) && e.Spawn?
    ensures FramesMatch(Step(s, e))
  {
    StartsABody(s.stack, s.completed);
  }

  lemma StartsABody(stack: seq<Frame>, completed: seq<bool>)
    requires FramesOnce(stack) && AllRunning(stack, completed)
    ensures var grown := stack + [Body(|completed|)];
            && FramesOnce(grown) && AllRunning(grown, completed + [false])
            && CompletionFrames(grown) == CompletionFrames(stack) && (DirectStop in grown <==> DirectStop in stack)
  {
    assert !Running(completed, Body(|completed|));
    PushedFrame(stack, Body(|completed|));
    assert forall f :: f in stack ==> Running(completed, f) && Running(completed + [false], f);
  }

  lemma PopKeepsFrames(s: State)
    requires FramesMatch(s) && s.stack != [] && !Top(s).value.Completion?
    ensures FramesMatch(s.(stack := Below(s)))
  {
    TopIsOnTheStack(s);
    PushedFrame(Below(s), Top(s).value);
  }

  lemma CompleteKeepsFrames(s: State, outcome: Outcome)
    requires FramesMatch(s) && Enabled(s, Complete(outcome))
    ensures FramesMatch(Step(s, Complete(outcome)))
    ensures Step(s, Complete(outcome)).completionDepth > 0
  {
    var t := Step(s, Complete(outcome));
    var c, f := Top(s).value.child, t.stack[|t.stack| - 1];
    TopIsOnTheStack(s);
    assert t.stack == Below(s) + [f] && t.completed == s.completed[c := true] && f.Completion?;
    ReplacesTheBody(Below(s), s.completed, c, f);
  }

  /** A completion callback takes the place of the body on top of the stack. */
  lemma ReplacesTheBody(below: seq<Frame>, completed: seq<bool>, c: nat, f: Frame)
    requires c < |completed| && f.Completion?
    requires FramesOnce(below + [Body(c)]) && AllRunning(below + [Body(c)], completed)
    ensures FramesOnce(below + [f]) && AllRunning(below + [f], completed[c := true])
    ensures CompletionFrames(below + [f]) == CompletionFrames(below + [Body(c)]) + 1
    ensures DirectStop in below + [f] <==> DirectStop in below + [Body(c)]
  {
    PushedFrame(below, Body(c));
    PushedFrame(below, f);
    OthersKeepRunning(below, completed, c);
  }

  lemma OthersKeepRunning(below: seq<Frame>, completed: seq<bool>, c: nat)
    requires c < |completed| && Body(c) !in below && AllRunning(below + [Body(c)], completed)
    ensures AllRunning(below, completed[c := true])
  {
    assert forall f :: f in below ==> f in below + [Body(c)];
  }

  lemma LeaveKeepsFrames(s: State)
    requires FramesMatch(s) && Enabled(s, EndCompletion)
    ensures FramesMatch(Step(s, EndCompletion))
  {
    TopIsOnTheStack(s);
    PushedFrame(Below(s), Top(s).value);
    PushedFrame(Below(s), Joiner);
  }

  lemma FinishKeepsFrames(s: State)
    requires FramesMatch(s) && JoinMatches(s) && Enabled(s, FinishJoin)
    ensures FramesMatch(Step(s, FinishJoin))
  {
    assert AllRunning(s.stack, []);
  }

  lemma StopKeepsFrames(s: State)
    requires FramesMatch(s)
    ensures FramesMatch(Step(s, RequestStop))
  {
    PushedFrame(s.stack, DirectStop);
  }

  lemma StepKeepsJoin(s: State, e: Event)
    requires Counted(s) && FramesMatch(s) && JoinMatches(s) && LifeMatches(s)
    ensures JoinMatches(Step(s, e))
  {
    if Enabled(s, e) {
      match e
      case Resume(c) => ResumeKeepsJoin(s, c);
      case Suspend => PopKeepsJoin(s, e);
      case Complete(outcome) => CompleteKeepsJoin(s, outcome);
      case EndCompletion => LeaveKeepsJoin(s);
      case StartJoin(_, _) => StartKeepsJoin(s, e);
      case RequestStop => StopKeepsJoin(s);
      case EndStop => PopKeepsJoin(s, e);
      case _ =>
    }
  }

  lemma ResumeKeepsJoin(s: State, c: nat)
    requires Counted(s) && JoinMatches(s) && Enabled(s, Resume(c))
    ensures JoinMatches(Step(s, Resume(c)))
  {
    UncompletedAt(s.completed, c);
  }

  lemma PopKeepsJoin(s: State, e: Event)
    requires JoinMatches(s) && (e.Suspend? || e.EndStop?) && Enabled(s, e)
    ensures JoinMatches(Step(s, e))
  {
    TopIsOnTheStack(s);
  }

  lemma StopKeepsJoin(s: State)
    requires JoinMatches(s)
    ensures JoinMatches(Step(s, RequestStop))
  {
  }

  lemma CompleteKeepsJoin(s: State, outcome: Outcome)
    requires Counted(s) && FramesMatch(s) && JoinMatches(s) && Enabled(s, Complete(outcome))
    ensures JoinMatches(Step(s, Complete(outcome)))
  {
    TopIsOnTheStack(s);
    CompleteKeepsFrames(s, outcome);
    RunningBodyIsActive(s, Top(s).value.child);
  }

  lemma LeaveKeepsJoin(s: State)
    requires Counted(s) && FramesMatch(s) && JoinMatches(s) && Enabled(s, EndCompletion)
    ensures JoinMatches(Step(s, EndCompletion))
  {
    TopIsOnTheStack(s);
    PushedFrame(Below(s), Top(s).value);
    if HandsOut(s) {
      HandOutKeepsJoin(s);
    } else {
      assert Step(s, EndCompletion) == s.(completionDepth := s.completionDepth - 1, stack := Below(s));
    }
  }

  /** The guard at the end of `child_completed`. */
  predicate HandsOut(s: State) {
    s.activeChildren == 0 && s.joinContinuation.Some? && s.completionDepth == 1
  }

  lemma HandOutKeepsJoin(s: State)
    requires Counted(s) && FramesMatch(s) && JoinMatches(s) && Enabled(s, EndCompletion) && HandsOut(s)
    requires CompletionFrames(Below(s)) == 0
    ensures JoinMatches(Step(s, EndCompletion))
  {
    NothingButStops(s);
    StopsAndJoiner(Below(s));
    assert Step(s, EndCompletion)
        == s.(completionDepth := 0, joinContinuation := None, join := Ready, handOuts := s.handOuts + [Below(s)],
              stack := Below(s) + [Joiner]);
  }

  lemma StopsAndJoiner(stack: seq<Frame>)
    requires OnlyDirectStops(stack)
    ensures NoChildFrames(stack + [Joiner])
  {
  }

  /** With no child active and only the outermost completion callback left, only a direct stop can be below it. */
  lemma NothingButStops(s: State)
    requires Counted(s) && FramesMatch(s) && s.activeChildren == 0 && Joiner !in s.stack
    requires s.stack != [] && CompletionFrames(Below(s)) == 0
    ensures OnlyDirectStops(Below(s))
  {
    var below := Below(s);
    NoCompletionFrames(below);
    forall i | 0 <= i < |below|
      ensures below[i] == DirectStop
    {
      assert below[i] == s.stack[i] && s.stack[i] in s.stack;
      if below[i].Body? {
        RunningBodyIsActive(s, below[i].child);
      }
    }
  }

  lemma StartKeepsJoin(s: State, e: Event)
    requires Counted(s) && FramesMatch(s) && JoinMatches(s) && e.StartJoin? && Enabled(s, e)
    ensures JoinMatches(Step(s, e))
  {
    if s.activeChildren == 0 && s.stack != [] {
      TopIsOnTheStack(s);
      if Top(s).value.Body? {
        RunningBodyIsActive(s, Top(s).value.child);
      }
    }
  }

  lemma StepKeepsFailure(s: State, e: Event)
    requires Counted(s) && FramesMatch(s) && JoinMatches(s) && FailureMatches(s)
    ensures FailureMatches(Step(s, e))
  {
    if Enabled(s, e) && e.Complete? {
      TopIsOnTheStack(s);
      RunningBodyIsActive(s, Top(s).value.child);
      FirstFailureAppend(s.outcomes, e.outcome);
    }
  }

  lemma StepKeepsLife(s: State, e: Event)
    requires FramesMatch(s) && JoinMatches(s) && LifeMatches(s)
    ensures LifeMatches(Step(s, e))
  {
    if Enabled(s, e) {
      match e
      case Suspend => PopKeepsLife(s);
      case Complete(_) => TopIsOnTheStack(s);
      case EndCompletion => LeaveKeepsLife(s);
      case EndStop => EndStopKeepsLife(s);
      case _ =>
    }
  }

  lemma PopKeepsLife(s: State)
    requires LifeMatches(s) && s.stack != [] && Top(s).value != DirectStop
    ensures LifeMatches(s.(stack := Below(s)))
  {
    TopIsOnTheStack(s);
  }

  lemma LeaveKeepsLife(s: State)
    requires LifeMatches(s) && Enabled(s, EndCompletion)
    ensures LifeMatches(Step(s, EndCompletion))
  {
    TopIsOnTheStack(s);
  }

  lemma EndStopKeepsLife(s: State)
    requires FramesMatch(s) && LifeMatches(s) && Enabled(s, EndStop)
    ensures LifeMatches(Step(s, EndStop))
  {
    TopIsOnTheStack(s);
  }

  lemma {:induction false} RunKeepsInv(es: seq<Event>)
    ensures Inv(Run(Init, es))
  {
    if es != [] {
      RunKeepsInv(es[..|es| - 1]);
      StepKeepsInv(Run(Init, es[..|es| - 1]), es[|es| - 1]);
    }
  }

  // ----- Theorems over every run -----

  lemma {:induction false} ActiveChildrenCountsUncompleted(es: seq<Event>)
    ensures var s := Run(Init, es);
            s.activeChildren == Uncompleted(s.completed) && s.completionDepth == CompletionFrames(s.stack)
  {
    RunKeepsInv(es);
  }

  /**
  The joining parent is handed out at most once, and it is handed out as soon as no child is
  active and the outermost completion callback has unwound. At that moment, and when it then
  destroys the children, no frame of any child and no completion callback is on the stack,
  however deeply stop nested their completions.
  */
  lemma {:induction false} JoinerIsHandedOutOnceAndAlone(es: seq<Event>)
    ensures var s := Run(Init, es);
            && |s.handOuts| <= 1
            && (forall h :: h in s.handOuts ==> OnlyDirectStops(h))
            && (Enabled(s, FinishJoin) ==>
                  s.activeChildren == 0 && s.completionDepth == 0 && NoChildFrames(s.stack)
                  && forall c :: 0 <= c < |s.completed| ==> s.completed[c])
            && (s.joinStarted && s.activeChildren == 0 && s.completionDepth == 0 ==> s.join != Pending)
            && (s.joinStarted && s.join == Pending ==> s.joinContinuation.Some? && s.handOuts == [])
  {
    RunKeepsInv(es);
    var s := Run(Init, es);
    if Enabled(s, FinishJoin) {
      NoFramesNoDepth(s.stack);
      AllCompleted(s.completed);
    }
  }

  lemma {:induction false} AllCompleted(completed: seq<bool>)
    requires Uncompleted(completed) == 0
    ensures forall c :: 0 <= c < |completed| ==> completed[c]
  {
    forall c | 0 <= c < |completed|
      ensures completed[c]
    {
      if !completed[c] {
        UncompletedAt(completed, c);
      }
    }
  }

  lemma {:induction false} NoFramesNoDepth(stack: seq<Frame>)
    requires NoChildFrames(stack)
    ensures CompletionFrames(stack) == 0
  {
    if stack != [] {
      NoFramesNoDepth(stack[..|stack| - 1]);
    }
  }

  /** A hand-out records the stack below it; only a direct stop pushes `DirectStop`. */
  lemma StepWithoutDirectStop(s: State, e: Event)
    requires e != RequestStop && DirectStop !in s.stack
    ensures DirectStop !in Step(s, e).stack
    ensures Step(s, e).handOuts == s.handOuts || Step(s, e).handOuts == s.handOuts + [Below(s)]
    ensures Step(s, e).destroyedInside ==> s.destroyedInside
  {
    if Enabled(s, e) {
      match e
      case Suspend => TopIsOnTheStack(s);
      case Complete(_) => TopIsOnTheStack(s);
      case EndCompletion => LeaveWithoutDirectStop(s);
      case EndStop => TopIsOnTheStack(s);
      case _ =>
    }
  }

  lemma LeaveWithoutDirectStop(s: State)
    requires DirectStop !in s.stack && Enabled(s, EndCompletion)
    ensures DirectStop !in LeaveCompletion(s).stack && LeaveCompletion(s).destroyedInside == s.destroyedInside
    ensures LeaveCompletion(s).handOuts == s.handOuts || LeaveCompletion(s).handOuts == s.handOuts + [Below(s)]
  {
    TopIsOnTheStack(s);
  }

  /**
  Stop raised only by failing children: then nothing at all is left on the stack below the
  joiner, and a destroyed scope is never used again.
  */
  lemma {:induction false} WithoutDirectStopTheStackIsEmpty(es: seq<Event>)
    requires RequestStop !in es
    ensures var s := Run(Init, es);
            && DirectStop !in s.stack && !s.destroyedInside && !s.usedAfterwards
            && (forall h :: h in s.handOuts ==> h == [])
            && (Enabled(s, FinishJoin) ==> forall f :: f in s.stack ==> f == Joiner)
  {
    RunKeepsInv(es);
    if es != [] {
      var front, e := es[..|es| - 1], es[|es| - 1];
      WithoutDirectStopTheStackIsEmpty(front);
      var s, t := Run(Init, front), Run(Init, es);
      StepWithoutDirectStop(s, e);
      if t.handOuts != s.handOuts {
        EmptyUnlessStopped(t, Below(s));
        assert forall f :: f in Below(s) ==> f in s.stack;
      }
    }
  }

  lemma EmptyUnlessStopped(s: State, h: seq<Frame>)
    requires JoinMatches(s) && s.handOuts != [] && s.handOuts[|s.handOuts| - 1] == h
    ensures forall f :: f in h ==> f == DirectStop
    ensures DirectStop !in h ==> h == []
  {
    if h != [] {
      assert h[0] in h;
    }
  }

  // ----- A stop called directly on the scope -----

  /** The frame at depth `base` stays on the stack all along the run. */
  predicate Under(s: State, base: nat, es: seq<Event>) {
    && |Run(s, es).stack| > base
    && (es != [] ==> Under(s, base, es[..|es| - 1]))
  }

  lemma UnderOne(s: State, base: nat, e: Event)
    requires |s.stack| > base && |Step(s, e).stack| > base
    ensures Under(s, base, [e]) && Run(s, [e]) == Step(s, e)
  {
    assert [e][..0] == [];
    assert Under(s, base, []);
  }

  lemma {:induction false} UnderConcat(s: State, base: nat, a: seq<Event>, b: seq<Event>)
    requires Under(s, base, a) && Under(Run(s, a), base, b)
    ensures Under(s, base, a + b) && Run(s, a + b) == Run(Run(s, a), b)
    decreases |b|
  {
    RunConcat(s, a, b);
    if b == [] {
      assert a + b == a;
    } else {
      var front := b[..|b| - 1];
      assert (a + b)[..|a + b| - 1] == a + front;
      UnderConcat(s, base, a, front);
    }
  }

  lemma {:induction false} RunConcat(s: State, a: seq<Event>, b: seq<Event>)
    ensures Run(s, a + b) == Run(Run(s, a), b)
    decreases |b|
  {
    if b == [] {
      assert a + b == a;
    } else {
      var front := b[..|b| - 1];
      assert (a + b)[..|a + b| - 1] == a + front;
      RunConcat(s, a, front);
    }
  }

  /** `request_stop()` is called at `s`, and before it returns the joiner is handed out. */
  predicate HandsOutUnder(s: State, es: seq<Event>) {
    Under(Step(s, RequestStop), |s.stack|, es) && Run(Step(s, RequestStop), es).handOuts != s.handOuts
  }

  /** `request_stop()` is called at `s`, and before it returns the scope is destroyed. */
  predicate DestroysUnder(s: State, es: seq<Event>) {
    Under(Step(s, RequestStop), |s.stack|, es) && Run(Step(s, RequestStop), es).destroyed
  }

  /** What a caller of `request_stop()` can see: it is in no frame of the scope, stops first, and a child is active. */
  predicate Endangers(s: State) {
    s.stack == [] && !s.stopRequested && s.activeChildren > 0
  }

  /** The frame at depth `base` is a direct stop, and everything up to it stays as it is. */
  lemma StepKeepsBase(s: State, base: nat, e: Event)
    requires |s.stack| > base && s.stack[base] == DirectStop && |Step(s, e).stack| > base
    ensures Step(s, e).stack[..base + 1] == s.stack[..base + 1]
  {
    if Enabled(s, e) {
      match e
      case Spawn(_, _) => PushKeepsBase(s.stack, base, Body(|s.completed|));
      case Resume(c) => PushKeepsBase(s.stack, base, Body(c));
      case Suspend => PopKeepsBase(s, base);
      case Complete(outcome) => CompleteKeepsBase(s, base, outcome);
      case EndCompletion => LeaveKeepsBase(s, base);
      case RequestStop => PushKeepsBase(s.stack, base, DirectStop);
      case EndStop => PopKeepsBase(s, base);
      case _ =>
    }
  }

  lemma PopKeepsBase(s: State, base: nat)
    requires |s.stack| > base + 1
    ensures |Below(s)| > base && Below(s)[..base + 1] == s.stack[..base + 1]
  {
  }

  lemma CompleteKeepsBase(s: State, base: nat, outcome: Outcome)
    requires |s.stack| > base && s.stack[base] == DirectStop && Enabled(s, Complete(outcome))
    ensures Step(s, Complete(outcome)).stack[..base + 1] == s.stack[..base + 1]
  {
    PopKeepsBase(s, base);
    var t := Step(s, Complete(outcome));
    PushKeepsBase(Below(s), base, t.stack[|t.stack| - 1]);
  }

  lemma LeaveKeepsBase(s: State, base: nat)
    requires |s.stack| > base && s.stack[base] == DirectStop && Enabled(s, EndCompletion)
    ensures Step(s, EndCompletion).stack[..base + 1] == s.stack[..base + 1]
  {
    PopKeepsBase(s, base);
    PushKeepsBase(Below(s), base, Joiner);
  }

  lemma PushKeepsBase(stack: seq<Frame>, base: nat, f: Frame)
    requires |stack| > base
    ensures (stack + [f])[..base + 1] == stack[..base + 1]
  {
  }

  lemma {:induction false} UnderKeepsBase(s: State, base: nat, es: seq<Event>)
    requires |s.stack| > base && s.stack[base] == DirectStop && Under(s, base, es)
    ensures Run(s, es).stack[..base + 1] == s.stack[..base + 1]
  {
    if es != [] {
      var front := es[..|es| - 1];
      UnderKeepsBase(s, base, front);
      assert Run(s, front).stack[base] == Run(s, front).stack[..base + 1][base];
      StepKeepsBase(Run(s, front), base, es[|es| - 1]);
    }
  }

  lemma {:induction false} RunKeepsInvFrom(s: State, es: seq<Event>)
    requires Inv(s)
    ensures Inv(Run(s, es))
  {
    if es != [] {
      RunKeepsInvFrom(s, es[..|es| - 1]);
      StepKeepsInv(Run(s, es[..|es| - 1]), es[|es| - 1]);
    }
  }

  /** A stop called from a child's body cannot outlive that child: the body is below it and stays uncompleted. */
  lemma StopInsideABody(s: State, es: seq<Event>)
    requires Inv(s) && Enabled(s, RequestStop) && !s.stopRequested && s.activeChildren > 0 && s.stack != []
    ensures !HandsOutUnder(s, es) && !DestroysUnder(s, es)
  {
    var s0, base := Step(s, RequestStop), |s.stack|;
    if Under(s0, base, es) {
      TopIsOnTheStack(s);
      var c := Top(s).value.child;
      StepKeepsInv(s, RequestStop);
      RunKeepsInvFrom(s0, es);
      UnderKeepsBase(s0, base, es);
      var t := Run(s0, es);
      assert t.stack[base - 1] == t.stack[..base + 1][base - 1] == Body(c);
      RunningBodyIsActive(t, c);
    }
  }

  /** With no active child the stop has nobody to resume, and nothing happens before it returns. */
  lemma {:induction false} StopWithoutChildren(s: State, base: nat, es: seq<Event>)
    requires Inv(s) && s.activeChildren == 0 && s.join != Ready && Top(s) == Some(DirectStop) && |s.stack| == base + 1
    requires Under(s, base, es)
    ensures Run(s, es) == s
  {
    if es != [] {
      StopWithoutChildren(s, base, es[..|es| - 1]);
      OnlyTheStopMoves(s, es[|es| - 1]);
    }
  }

  lemma OnlyTheStopMoves(s: State, e: Event)
    requires Inv(s) && s.activeChildren == 0 && s.join != Ready && Top(s) == Some(DirectStop)
    ensures Step(s, e) == s || |Step(s, e).stack| < |s.stack|
  {
    if e.Resume? && Enabled(s, e) {
      UncompletedAt(s.completed, e.child);
    }
  }

  lemma NoDangerNoHandOut(s: State, es: seq<Event>)
    requires Inv(s) && UserCode(s) && s.join != Ready && !s.destroyed && !Endangers(s)
    ensures !HandsOutUnder(s, es) && !DestroysUnder(s, es)
  {
    if s.stopRequested {
      NeverUnder(s, |s.stack|, es);
    } else if s.activeChildren > 0 {
      StopInsideABody(s, es);
    } else if Under(Step(s, RequestStop), |s.stack|, es) {
      StepKeepsInv(s, RequestStop);
      StopWithoutChildren(Step(s, RequestStop), |s.stack|, es);
    }
  }

  lemma {:induction false} NeverUnder(s: State, base: nat, es: seq<Event>)
    requires |s.stack| <= base
    ensures !Under(s, base, es)
  {
    if es != [] {
      NeverUnder(s, base, es[..|es| - 1]);
    }
  }

  // ----- Completing every child under the stop -----

  function AnUncompleted(completed: seq<bool>): (c: nat)
    requires Uncompleted(completed) > 0
    ensures c < |completed| && !completed[c]
  {
    if !completed[0] then 0 else 1 + AnUncompleted(completed[1..])
  }

  /** Only the direct stop is on the stack, and it has a child to resume. */
  predicate Stopping(s: State) {
    Inv(s) && s.stack == [DirectStop] && s.activeChildren > 0
  }

  /** A child resumed by the stop makes someone join, if nobody has yet. */
  function JoinFirst(s: State): seq<Event>
    requires Stopping(s)
  {
    if s.joinStarted then []
    else [Resume(AnUncompleted(s.completed))] + [StartJoin(0, true)] + [Suspend]
  }

  lemma JoinedUnderTheStop(s: State)
    requires Stopping(s)
    ensures var t := Run(s, JoinFirst(s));
            Under(s, 0, JoinFirst(s)) && Stopping(t) && t.joinStarted && t.activeChildren == s.activeChildren
  {
    if !s.joinStarted {
      var c := AnUncompleted(s.completed);
      var resumed := s.(stack := [DirectStop] + [Body(c)]);
      ResumeUnderTheStop(s, c);
      var joined := resumed.(joinStarted := true, joinContinuation := Some(0));
      assert Step(resumed, StartJoin(0, true)) == joined;
      assert Step(joined, Suspend) == joined.(stack := [DirectStop]) by {
        assert Below(joined) == [DirectStop];
      }
      UnderThree(s, 0, Resume(c), StartJoin(0, true), Suspend);
      RunKeepsInvFrom(s, JoinFirst(s));
    }
  }

  lemma ResumeUnderTheStop(s: State, c: nat)
    requires Stopping(s) && c < |s.completed| && !s.completed[c]
    ensures Step(s, Resume(c)) == s.(stack := [DirectStop] + [Body(c)])
  {
    assert Body(c) !in s.stack;
  }

  lemma UnderThree(s: State, base: nat, a: Event, b: Event, c: Event)
    requires |s.stack| > base && |Step(s, a).stack| > base
    requires |Step(Step(s, a), b).stack| > base && |Step(Step(Step(s, a), b), c).stack| > base
    ensures Under(s, base, [a] + [b] + [c])
    ensures Run(s, [a] + [b] + [c]) == Step(Step(Step(s, a), b), c)
  {
    UnderOne(s, base, a);
    UnderOne(Step(s, a), base, b);
    UnderConcat(s, base, [a], [b]);
    UnderOne(Step(Step(s, a), b), base, c);
    UnderConcat(s, base, [a] + [b], [c]);
  }

  function CompleteOne(s: State): seq<Event>
    requires Stopping(s)
  {
    [Resume(AnUncompleted(s.completed))] + [Complete(Ok)] + [EndCompletion]
  }

  /** One more child completes; the last one hands the joiner out on top of the stop. */
  lemma CompletesUnderTheStop(s: State)
    requires Stopping(s) && s.joinStarted
    ensures var t := Run(s, CompleteOne(s));
            && Under(s, 0, CompleteOne(s)) && Inv(t) && t.joinStarted && t.activeChildren == s.activeChildren - 1
            && (if s.activeChildren > 1 then t.stack == [DirectStop]
                else t.stack == [DirectStop, Joiner] && t.join == Ready && t.handOuts != [] && !t.destroyed)
  {
    var c := AnUncompleted(s.completed);
    ResumeUnderTheStop(s, c);
    var resumed := s.(stack := [DirectStop] + [Body(c)]);
    var completed := Step(resumed, Complete(Ok));
    CompleteInTheStop(s, c);
    LeaveInTheStop(s, c);
    UnderThree(s, 0, Resume(c), Complete(Ok), EndCompletion);
    RunKeepsInvFrom(s, CompleteOne(s));
  }

  lemma CompleteInTheStop(s: State, c: nat)
    requires Stopping(s) && c < |s.completed| && !s.completed[c]
    ensures var resumed := s.(stack := [DirectStop] + [Body(c)]);
            Step(resumed, Complete(Ok)) ==
            s.(completed := s.completed[c := true], activeChildren := s.activeChildren - 1,
               completionDepth := 1, stack := [DirectStop] + [Completion(c, false)], outcomes := s.outcomes + [Ok])
  {
    var resumed := s.(stack := [DirectStop] + [Body(c)]);
    assert Below(resumed) == [DirectStop];
    NoFramesNoDepth(s.stack);
  }

  lemma LeaveInTheStop(s: State, c: nat)
    requires Stopping(s) && s.joinStarted && c < |s.completed| && !s.completed[c]
    ensures var t := Step(Step(s.(stack := [DirectStop] + [Body(c)]), Complete(Ok)), EndCompletion);
            && t.joinStarted && t.activeChildren == s.activeChildren - 1
            && (if s.activeChildren > 1 then t.stack == [DirectStop]
                else t.stack == [DirectStop, Joiner] && t.join == Ready && t.handOuts != [] && !t.destroyed)
  {
    CompleteInTheStop(s, c);
    var u := Step(s.(stack := [DirectStop] + [Body(c)]), Complete(Ok));
    assert Below(u) == [DirectStop];
  }

  /** Every child completes inside the stop, one after the other. */
  function CompleteAll(s: State): seq<Event>
    requires Stopping(s) && s.joinStarted
    decreases s.activeChildren
  {
    CompletesUnderTheStop(s);
    if s.activeChildren == 1 then CompleteOne(s)
    else CompleteOne(s) + CompleteAll(Run(s, CompleteOne(s)))
  }

  lemma {:induction false} HandedOutUnderTheStop(s: State)
    requires Stopping(s) && s.joinStarted
    ensures var t := Run(s, CompleteAll(s));
            && Under(s, 0, CompleteAll(s))
            && Inv(t) && t.stack == [DirectStop, Joiner] && t.join == Ready && t.handOuts != [] && !t.destroyed
    decreases s.activeChildren
  {
    CompletesUnderTheStop(s);
    if s.activeChildren > 1 {
      var t := Run(s, CompleteOne(s));
      HandedOutUnderTheStop(t);
      UnderConcat(s, 0, CompleteOne(s), CompleteAll(t));
    }
  }

  /** A run that hands the joiner out under a stop called at `s`. */
  function Danger(s: State): seq<Event>
    requires Inv(s) && Endangers(s) && s.join != Ready && !s.destroyed
  {
    StopBegins(s);
    var s0 := Step(s, RequestStop);
    JoinedUnderTheStop(s0);
    JoinFirst(s0) + CompleteAll(Run(s0, JoinFirst(s0)))
  }

  lemma StopBegins(s: State)
    requires Inv(s) && Endangers(s) && s.join != Ready && !s.destroyed
    ensures Stopping(Step(s, RequestStop)) && Step(s, RequestStop).handOuts == s.handOuts == []
  {
    StepKeepsInv(s, RequestStop);
  }

  lemma DangerHandsOut(s: State)
    requires Inv(s) && Endangers(s) && s.join != Ready && !s.destroyed
    ensures var s0 := Step(s, RequestStop);
            var t := Run(s0, Danger(s));
            && Under(s0, 0, Danger(s)) && Inv(t)
            && t.stack == [DirectStop, Joiner] && t.join == Ready && t.handOuts != [] && !t.destroyed
  {
    StopBegins(s);
    var s0 := Step(s, RequestStop);
    JoinedUnderTheStop(s0);
    var s1 := Run(s0, JoinFirst(s0));
    HandedOutUnderTheStop(s1);
    UnderConcat(s0, 0, JoinFirst(s0), CompleteAll(s1));
  }

  /** The joiner ends the join and destroys the scope, still on top of the stop. */
  lemma ThenDestroys(s: State, es: seq<Event>)
    requires Under(s, 0, es)
    requires var t := Run(s, es);
             JoinMatches(t) && t.stack == [DirectStop, Joiner] && t.join == Ready && !t.destroyed
    ensures Under(s, 0, es + [FinishJoin] + [Destroy]) && Run(s, es + [FinishJoin] + [Destroy]).destroyed
  {
    var t := Run(s, es);
    DestroyedAfterTheJoin(t);
    UnderOne(t, 0, FinishJoin);
    UnderConcat(s, 0, es, [FinishJoin]);
    UnderOne(Step(t, FinishJoin), 0, Destroy);
    UnderConcat(s, 0, es + [FinishJoin], [Destroy]);
  }

  lemma DestroyedAfterTheJoin(t: State)
    requires JoinMatches(t) && t.stack == [DirectStop, Joiner] && t.join == Ready && !t.destroyed
    ensures var u := Step(Step(t, FinishJoin), Destroy); u.destroyed && u.stack == t.stack
    ensures Step(t, FinishJoin).stack == t.stack
  {
  }

  /**
  The completion-depth guard does not count a `request_stop()` called directly on the scope. In
  any run, such a call made by user code can hand the joiner out while it is still walking its
  callbacks, and can have the scope destroyed under it, if and only if it is the first stop, no
  frame of the scope is active, and some child is. All three can be checked before the call.
  */
  lemma {:induction false} DirectStopIsUnsafeIff(es: seq<Event>)
    requires Enabled(Run(Init, es), RequestStop)
    ensures var s := Run(Init, es);
            && ((exists more :: HandsOutUnder(s, more)) <==> Endangers(s))
            && ((exists more :: DestroysUnder(s, more)) <==> Endangers(s))
  {
    RunKeepsInv(es);
    var s := Run(Init, es);
    if Endangers(s) {
      StopBegins(s);
      DangerHandsOut(s);
      ThenDestroys(Step(s, RequestStop), Danger(s));
      assert HandsOutUnder(s, Danger(s)) && DestroysUnder(s, Danger(s) + [FinishJoin] + [Destroy]);
    } else {
      forall more
        ensures !HandsOutUnder(s, more) && !DestroysUnder(s, more)
      {
        NoDangerNoHandOut(s, more);
      }
    }
  }

  /** At some point of the run the scope was destroyed while one of its own stops was under way. */
  predicate DestroyedDuringStop(es: seq<Event>) {
    es != [] &&
    var front, before := es[..|es| - 1], Run(Init, es[..|es| - 1]);
    || DestroyedDuringStop(front)
    || (es[|es| - 1] == Destroy && Enabled(before, Destroy) && DirectStop in before.stack)
  }

  lemma {:induction false} DestroyedInsideMeans(es: seq<Event>)
    ensures Run(Init, es).destroyedInside <==> DestroyedDuringStop(es)
    ensures Run(Init, es).destroyedInside ==> Run(Init, es).destroyed
  {
    if es != [] {
      DestroyedInsideMeans(es[..|es| - 1]);
      DestructionHistory(Run(Init, es[..|es| - 1]), es[|es| - 1]);
    }
  }

  lemma DestructionHistory(s: State, e: Event)
    ensures var t := Step(s, e);
            && (Enabled(s, Destroy) && e == Destroy ==>
                  !s.destroyed && t.destroyed && t.destroyedInside == (DirectStop in s.stack))
            && (!(Enabled(s, Destroy) && e == Destroy) ==>
                  t.destroyed == s.destroyed && t.destroyedInside == s.destroyedInside)
  {
  }

  /**
  A destroyed scope is used again, by a stop that has still to read its registrations or has done
  so, exactly when it was destroyed inside that stop.
  */
  lemma {:induction false} DestroyedScopeIsUsedIff(es: seq<Event>)
    ensures var s := Run(Init, es);
            s.usedAfterwards || (s.destroyed && DirectStop in s.stack) <==> DestroyedDuringStop(es)
  {
    RunKeepsInv(es);
    DestroyedInsideMeans(es);
  }

  /** One child, which has suspended. */
  const Started: State := Init.(completed := [false], activeChildren := 1)

  /** A joiner has suspended too, and a direct stop is running its callbacks. */
  const Waiting: State :=
    Started.(stopRequested := true, stack := [DirectStop], joinStarted := true, joinContinuation := Some(7))

  /** One of them has completed the child. */
  const Completing: State :=
    Waiting.(completed := [true], activeChildren := 0, completionDepth := 1,
             stack := [DirectStop, Completion(0, false)], outcomes := [Ok])

  /** The joiner runs on top of the stop. */
  const HandedOut: State :=
    Completing.(completionDepth := 0, joinContinuation := None, join := Ready, handOuts := [[DirectStop]],
                stack := [DirectStop, Joiner])

  const JoinAndStop: seq<Event> := [Spawn(true, true), Suspend] + [StartJoin(7, true), RequestStop]
  const CompleteAndDestroy: seq<Event> := [Resume(0), Complete(Ok)] + [EndCompletion, FinishJoin] + [Destroy]

  /** The smallest such run: the stop completes the only child, whose joiner destroys the scope inside the stop. */
  lemma DirectStopDestroysItsScope()
    ensures Run(Init, JoinAndStop) == Waiting && Run(Waiting, CompleteAndDestroy) == HandedOut.(
              completed := [], join := Finished(None), destroyed := true, destroyedInside := true)
  {
    SpawnedAndSuspended();
    JoinedAndStopped();
    RunTwo(Init, Spawn(true, true), Suspend);
    RunTwo(Started, StartJoin(7, true), RequestStop);
    RunConcat(Init, [Spawn(true, true), Suspend], [StartJoin(7, true), RequestStop]);
    DestroyedByTheJoiner();
  }

  lemma DestroyedByTheJoiner()
    ensures Run(Waiting, CompleteAndDestroy) == HandedOut.(
              completed := [], join := Finished(None), destroyed := true, destroyedInside := true)
  {
    LastChildUnderDirectStop();
    RunTwo(Waiting, Resume(0), Complete(Ok));
    JoinerHandedOut();
    JoinerFinishes();
    RunTwo(Completing, EndCompletion, FinishJoin);
    RunConcat(Waiting, [Resume(0), Complete(Ok)], [EndCompletion, FinishJoin]);
    RunOne(HandedOut.(completed := [], join := Finished(None)), Destroy);
    RunConcat(Waiting, [Resume(0), Complete(Ok)] + [EndCompletion, FinishJoin], [Destroy]);
  }

  lemma RunOne(s: State, a: Event)
    ensures Run(s, [a]) == Step(s, a)
  {
    assert [a][..0] == [];
  }

  lemma RunTwo(s: State, a: Event, b: Event)
    ensures Run(s, [a, b]) == Step(Step(s, a), b)
  {
    RunOne(s, a);
    assert [a, b][..1] == [a];
  }

  lemma JoinerHandedOut()
    ensures Step(Completing, EndCompletion) == HandedOut
  {
    assert Below(Completing) == [DirectStop];
  }

  lemma JoinerFinishes()
    ensures var finished := HandedOut.(completed := [], join := Finished(None));
            && Step(HandedOut, FinishJoin) == finished
            && Step(finished, Destroy) == finished.(destroyed := true, destroyedInside := true)
  {
    assert HandedOut.stack[0] == DirectStop;
  }

  lemma SpawnedAndSuspended()
    ensures Step(Step(Init, Spawn(true, true)), Suspend) == Started
  {
    var spawned := Started.(stack := [Body(0)]);
    assert Step(Init, Spawn(true, true)) == spawned;
    assert Below(spawned) == [];
  }

  lemma JoinedAndStopped()
    ensures Step(Step(Started, StartJoin(7, true)), RequestStop) == Waiting
  {
    var joined := Started.(joinStarted := true, joinContinuation := Some(7));
    assert Step(Started, StartJoin(7, true)) == joined;
    assert [] + [DirectStop] == [DirectStop];
  }

  lemma LastChildUnderDirectStop()
    ensures Step(Step(Waiting, Resume(0)), Complete(Ok)) == Completing
  {
    var resumed := Waiting.(stack := [DirectStop, Body(0)]);
    assert Step(Waiting, Resume(0)) == resumed;
    assert Below(resumed) == [DirectStop];
  }

  /** Join rethrows the earliest failure in order of completion, whatever the stop it caused made siblings do. */
  lemma {:induction false} JoinRethrowsEarliestFailure(es: seq<Event>)
    ensures var s := Run(Init, es);
            s.join.Finished? ==> s.join.rethrown == FirstFailureOf(s.outcomes)
    ensures forall i :: var outcomes := Run(Init, es).outcomes;
              0 <= i < |outcomes| && outcomes[i].Failed? && (forall j :: 0 <= j < i ==> outcomes[j].Ok?)
              && Run(Init, es).join.Finished?
              ==> Run(Init, es).join.rethrown == Some(outcomes[i].failure)
  {
    RunKeepsInv(es);
    var outcomes := Run(Init, es).outcomes;
    forall i | 0 <= i < |outcomes| && outcomes[i].Failed? && forall j :: 0 <= j < i ==> outcomes[j].Ok?
      ensures FirstFailureOf(outcomes) == Some(outcomes[i].failure)
    {
      FirstFailureIsEarliest(outcomes, i);
    }
  }

  // ----- Fail-fast -----

  predicate SomeFailed(outcomes: seq<Outcome>) {
    exists o :: o in outcomes && o.Failed?
  }

  /** User code has called `request_stop()` somewhere in the run. */
  predicate StopCalled(es: seq<Event>) {
    es != [] &&
    var front := es[..|es| - 1];
    StopCalled(front) || (es[|es| - 1] == RequestStop && Enabled(Run(Init, front), RequestStop))
  }

  /** In every run stop has been requested if and only if some child has failed or user code has asked for it. */
  lemma {:induction false} StoppedIffFailedOrAsked(es: seq<Event>)
    ensures var s := Run(Init, es);
            s.stopRequested <==> SomeFailed(s.outcomes) || StopCalled(es)
  {
    if es != [] {
      var front, e := es[..|es| - 1], es[|es| - 1];
      StoppedIffFailedOrAsked(front);
      RunKeepsInv(front);
      StopHistory(Run(Init, front), e);
    }
  }

  lemma StopHistory(s: State, e: Event)
    requires FailureMatches(s)
    ensures var t := Step(s, e);
            && (t.stopRequested <==>
                  s.stopRequested || (e.RequestStop? && Enabled(s, e)) ||
                  (e.Complete? && Enabled(s, e) && e.outcome.Failed? && s.firstFailure == None))
            && (SomeFailed(t.outcomes) <==>
                  SomeFailed(s.outcomes) || (e.Complete? && Enabled(s, e) && e.outcome.Failed?))
            && (s.firstFailure != None ==> SomeFailed(s.outcomes))
  {
    FirstFailureFailed(s.outcomes);
    if Enabled(s, e) {
      match e
      case Complete(outcome) => CompleteHistory(s, outcome);
      case EndCompletion => LeaveHistory(s);
      case _ =>
    }
  }

  lemma CompleteHistory(s: State, outcome: Outcome)
    requires Enabled(s, Complete(outcome))
    ensures var t := BeginCompletion(s, outcome);
            && (t.stopRequested <==> s.stopRequested || (outcome.Failed? && s.firstFailure == None))
            && (SomeFailed(t.outcomes) <==> SomeFailed(s.outcomes) || outcome.Failed?)
  {
    var t := BeginCompletion(s, outcome);
    assert outcome in t.outcomes;
    assert forall o :: o in t.outcomes <==> o in s.outcomes || o == outcome;
  }

  lemma LeaveHistory(s: State)
    requires Enabled(s, EndCompletion)
    ensures LeaveCompletion(s).stopRequested == s.stopRequested && LeaveCompletion(s).outcomes == s.outcomes
  {
  }

  lemma {:induction false} FirstFailureFailed(outcomes: seq<Outcome>)
    ensures FirstFailureOf(outcomes).Some? <==> SomeFailed(outcomes)
  {
    if outcomes != [] {
      FirstFailureFailed(outcomes[1..]);
      assert outcomes == [outcomes[0]] + outcomes[1..];
    }
  }

  /**
  A child's completion raises stop exactly when it failed. If that is the first stop, its walk
  can resume every sibling that is waiting, on top of the completion callback; no other
  completion callback resumes anyone.
  */
  lemma {:induction false} FirstFailureStopsTheSiblings(es: seq<Event>, outcome: Outcome, sibling: nat)
    requires Enabled(Run(Init, es), Complete(outcome))
    ensures var s := Run(Init, es);
            var t := Step(s, Complete(outcome));
            && (t.stopRequested <==> s.stopRequested || outcome.Failed?)
            && (sibling < |t.completed| && !t.completed[sibling] && Body(sibling) !in t.stack ==>
                  (Step(t, Resume(sibling)) == t.(stack := t.stack + [Body(sibling)]) <==>
                     outcome.Failed? && !s.stopRequested))
  {
    var s := Run(Init, es);
    RunKeepsInv(es);
    StoppedIffFailedOrAsked(es);
    FirstFailureFailed(s.outcomes);
    CompleteHistory(s, outcome);
    var t := Step(s, Complete(outcome));
    assert s.join != Ready;
    assert s.firstFailure == None || s.stopRequested || s.join.Finished?;
    ResumedByTheStop(s, outcome, sibling);
  }

  lemma ResumedByTheStop(s: State, outcome: Outcome, sibling: nat)
    requires Enabled(s, Complete(outcome))
    ensures var t := Step(s, Complete(outcome));
            sibling < |t.completed| && !t.completed[sibling] && Body(sibling) !in t.stack ==>
              (Step(t, Resume(sibling)) == t.(stack := t.stack + [Body(sibling)]) <==>
                 outcome.Failed? && s.firstFailure == None && !s.stopRequested)
  {
    var t := Step(s, Complete(outcome));
    var first := outcome.Failed? && s.firstFailure == None;
    assert Top(t) == Some(Completion(Top(s).value.child, first && !s.stopRequested));
    assert |t.stack + [Body(sibling)]| == |t.stack| + 1;
  }

  lemma StopFields(s: State)
    requires Inv(s) && Enabled(s, RequestStop)
    ensures Inv(Step(s, RequestStop))
    ensures Step(s, RequestStop) ==
            (if s.stopRequested then s else s.(stopRequested := true, stack := s.stack + [DirectStop]))
  {
    StepKeepsInv(s, RequestStop);
  }

  // ----- The scope object -----

  datatype SpawnAnswer = AfterJoin | InvalidTask | NoMemory | Spawned

  datatype JoinAnswer = Rejected | Continues | Suspends

  /** `task_scope`. The ghost `m` adds the stack of frames and the history to its fields. */
  class Scope {
    var children: seq<bool>
    var joinContinuation: Option<Continuation>
    var firstFailure: Option<Failure>
    var activeChildren: nat
    var completionDepth: nat
    var joinStarted: bool
    var stopRequested: bool
    ghost var m: State

    ghost predicate Valid()
      reads this
    {
      && Inv(m)
      && m.completed == children && m.joinContinuation == joinContinuation && m.firstFailure == firstFailure
      && m.activeChildren == activeChildren && m.completionDepth == completionDepth
      && m.joinStarted == joinStarted && m.stopRequested == stopRequested
    }

    constructor ()
      ensures Valid() && m == Init
    {
      children, joinContinuation, firstFailure := [], None, None;
      activeChildren, completionDepth, joinStarted, stopRequested := 0, 0, false, false;
      m := Init;
    }

    /** Starts the child at once: when `Spawned`, its body is the innermost frame. */
    method SpawnChild(valid: bool, allocates: bool) returns (answer: SpawnAnswer)
      requires Valid() && Enabled(m, Spawn(valid, allocates))
      modifies this
      ensures Valid() && m == Step(old(m), Spawn(valid, allocates))
      ensures answer == (if old(joinStarted) then AfterJoin else if !valid then InvalidTask
                         else if !allocates then NoMemory else Spawned)
      ensures answer == Spawned ==> children == old(children) + [false] && Top(m) == Some(Body(|old(children)|))
      ensures answer != Spawned ==> m == old(m)
    {
      StepKeepsInv(m, Spawn(valid, allocates));
      m := Step(m, Spawn(valid, allocates));
      if joinStarted {
        return AfterJoin;
      }
      if !valid {
        return InvalidTask;
      }
      if !allocates {
        return NoMemory;
      }
      children := children + [false];
      activeChildren := activeChildren + 1;
      answer := Spawned;
    }

    method AwaitJoin(continuation: Continuation, sameLoop: bool) returns (answer: JoinAnswer)
      requires Valid() && Enabled(m, StartJoin(continuation, sameLoop))
      modifies this
      ensures Valid() && m == Step(old(m), StartJoin(continuation, sameLoop))
      ensures answer == Rejected <==> !sameLoop || old(joinStarted)
      ensures answer == Continues ==> activeChildren == 0 && m.join == Ready
      ensures answer == Suspends ==> activeChildren > 0 && joinContinuation == Some(continuation)
      ensures answer == Rejected ==> m == old(m)
    {
      StepKeepsInv(m, StartJoin(continuation, sameLoop));
      m := Step(m, StartJoin(continuation, sameLoop));
      if !sameLoop || joinStarted {
        return Rejected;
      }
      joinStarted := true;
      if activeChildren == 0 {
        return Continues;
      }
      joinContinuation := Some(continuation);
      answer := Suspends;
    }

    /** `request_stop()` up to the walk over the registrations, which only the first stop makes. */
    method BeginStop() returns (walks: bool)
      requires Valid() && Enabled(m, RequestStop)
      modifies this
      ensures Valid() && m == Step(old(m), RequestStop)
      ensures stopRequested && walks == !old(stopRequested)
      ensures m.stack == (if walks then old(m.stack) + [DirectStop] else old(m.stack))
    {
      StopFields(m);
      m := Step(m, RequestStop);
      walks := !stopRequested;
      stopRequested := true;
    }

    /** The walk has come to its end; it has been using the scope all along. */
    method EndWalk()
      requires Valid() && Enabled(m, EndStop)
      modifies this`m
      ensures Valid() && m == Step(old(m), EndStop) && m.stack == Below(old(m))
      ensures m.usedAfterwards == (old(m.usedAfterwards) || m.destroyed)
    {
      StepKeepsInv(m, EndStop);
      m := Step(m, EndStop);
    }

    /** `child_completed` up to its call of `request_stop()`; `first` when it makes that call. */
    method EnterCompletion(child: nat, outcome: Outcome) returns (first: bool)
      requires Valid() && Enabled(m, Complete(outcome)) && Top(m) == Some(Body(child))
      modifies this
      ensures Valid() && m == Step(old(m), Complete(outcome))
      ensures first <==> old(firstFailure) == None && outcome.Failed?
      ensures activeChildren == old(activeChildren) - 1 && children == old(children)[child := true]
      ensures firstFailure == (if first then Some(outcome.failure) else old(firstFailure))
      ensures stopRequested == (old(stopRequested) || (old(firstFailure) == None && outcome.Failed?))
      ensures Top(m) == Some(Completion(child, first && !old(stopRequested)))
    {
      StepKeepsInv(m, Complete(outcome));
      m := Step(m, Complete(outcome));
      completionDepth := completionDepth + 1;
      children := children[child := true];
      activeChildren := activeChildren - 1;
      first := false;
      if firstFailure == None && outcome.Failed? {
        firstFailure := Some(outcome.failure);
        first := true;
      }
      if first {
        stopRequested := true;
      }
    }

    /** `child_completed` once stop has returned: the joiner to transfer to, if any. */
    method ExitCompletion() returns (transfer: Option<Continuation>)
      requires Valid() && Enabled(m, EndCompletion)
      modifies this
      ensures Valid() && m == Step(old(m), EndCompletion)
      ensures transfer.Some? ==> transfer == old(joinContinuation) && joinContinuation == None && m.join == Ready
      ensures transfer.Some? <==> |m.handOuts| == |old(m.handOuts)| + 1
      ensures transfer == None ==> m.handOuts == old(m.handOuts)
    {
      StepKeepsInv(m, EndCompletion);
      m := LeaveCompletion(m);
      completionDepth := completionDepth - 1;
      transfer := None;
      if activeChildren == 0 && joinContinuation.Some? && completionDepth == 0 {
        transfer := joinContinuation;
        joinContinuation := None;
      }
    }

    /** `finish_join`: every child is complete, so every frame may be destroyed. */
    method CompleteJoin() returns (rethrown: Option<Failure>)
      requires Valid() && Enabled(m, FinishJoin)
      modifies this
      ensures Valid() && m == Step(old(m), FinishJoin)
      ensures children == [] && rethrown == FirstFailureOf(m.outcomes)
    {
      NoFramesNoDepth(m.stack);
      assert activeChildren == 0 && completionDepth == 0;
      for i := 0 to |children|
        invariant unchanged(this)
      {
        if !children[i] {
          UncompletedAt(children, i);
        }
        assert children[i];
      }
      StepKeepsInv(m, FinishJoin);
      m := Step(m, FinishJoin);
      children := [];
      rethrown := firstFailure;
      firstFailure := None;
    }
  }
}
