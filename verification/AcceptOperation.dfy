/**
`tcp_listener` accepts: the one-shot `accept_slot`, the accept awaiters with their provisional
child, and the three ways an armed accept can end: a connection, a stop request, or the
listener's close.

Awaiters are numbered in the order of their `accept()` calls. A continuation is resumed from
the connection callback when `uv_accept` succeeds and otherwise only from the close callback
of the child that was never transferred.
*/
module AcceptOperation {

  import opened Options

  const UV_EBADF := -9
  const UV_EBUSY := -16
  const UV_ECANCELED := -125

  /** The child `uv_tcp_t`: initialised and provisional, handed to a connection owner, or on its way out. */
  datatype Child = Absent | Provisional | Transferred | Closing | Closed

  datatype Awaiter = Awaiter(
    suspended: bool,
    continuation: bool,
    registered: bool,
    status: int,
    child: Child,
    // the continuation waits in the child's close state
    waitsForClose: bool,
    closeRequired: bool,
    closeCompleted: bool,
    nativeCloses: nat)

  /** What held at the moment a task was resumed. */
  datatype Resumption = Resumption(
    awaiter: nat, status: int, slotFree: bool, unregistered: bool, child: Child)

  datatype State = State(
    closing: bool,
    slot: Option<nat>,
    awaiters: seq<Awaiter>,
    // history: the calls that made the awaiters, resumed tasks, and native closes of the listener itself
    calls: seq<Event>,
    resumptions: seq<Resumption>,
    listenerCloses: nat)

  /** `registers` is what `register_callback` answers; `status` and the others are libuv's answers. */
  datatype Event =
    | Accept(sameLoop: bool, stopRequested: bool, cancellable: bool, registers: bool, initStatus: int)
    | Connection(status: int, acceptStatus: int)
    | Stop(awaiter: nat)
    | CloseListener
    | ChildClosed(awaiter: nat)

  const Init: State := State(false, None, [], [], [], 0)

  /** A stop callback exists while it is registered; a close callback comes once after `uv_close`. */
  predicate Enabled(s: State, e: Event) {
    match e
    case Stop(a) => a < |s.awaiters| && s.awaiters[a].registered
    case ChildClosed(a) => a < |s.awaiters| && s.awaiters[a].child == Closing
    case _ => true
  }

  function Rejected(status: int): Awaiter {
    Awaiter(false, false, false, status, Absent, false, false, false, 0)
  }

  /** `close_untransferred_connection`: the child is released, closed, and given the continuation. */
  function CloseUntransferred(a: Awaiter, status: int): Awaiter {
    a.(status := status, registered := false, continuation := false, waitsForClose := a.continuation,
       closeRequired := true, child := Closing, nativeCloses := a.nativeCloses + 1)
  }

  /** `accept_slot::quiesce()`: release the slot, then cancel the awaiter that held it. */
  function Quiesce(s: State): State {
    if s.slot.Some? && s.slot.value < |s.awaiters| then
      var a := s.slot.value;
      s.(slot := None, awaiters := s.awaiters[a := CloseUntransferred(s.awaiters[a], UV_ECANCELED)])
    else s.(slot := None)
  }

  function Resume(s: State, a: nat): State
    requires a < |s.awaiters|
  {
    var w := s.awaiters[a];
    s.(resumptions := s.resumptions + [Resumption(a, w.status, s.slot != Some(a), !w.registered, w.child)])
  }

  function AcceptStep(s: State, e: Event): State
    requires e.Accept?
  {
    if s.closing then Refuse(s, e, UV_EBADF)
    else if !e.sameLoop then s
    else if e.stopRequested then Refuse(s, e, UV_ECANCELED)
    else if s.slot.Some? then Refuse(s, e, UV_EBUSY)
    else if e.initStatus < 0 then Refuse(s, e, e.initStatus)
    else
      var t := Arm(s, e);
      if e.cancellable && !e.registers then Quiesce(t) else t
  }

  function Refuse(s: State, e: Event, status: int): State {
    s.(awaiters := s.awaiters + [Rejected(status)], calls := s.calls + [e])
  }

  /** The awaiter claims the slot and registers its stop callback. */
  function Arm(s: State, e: Event): State
    requires e.Accept?
  {
    var armed := Awaiter(true, true, e.cancellable && e.registers, e.initStatus, Provisional, false, false, false, 0);
    s.(slot := Some(|s.awaiters|), awaiters := s.awaiters + [armed], calls := s.calls + [e])
  }

  function ConnectionStep(s: State, status: int, acceptStatus: int): State {
    if s.closing || s.slot == None || s.slot.value >= |s.awaiters| then s
    else
      var a := s.slot.value;
      var w := s.awaiters[a];
      var outcome := if status >= 0 then acceptStatus else status;
      var t := s.(slot := None);
      if outcome < 0 then t.(awaiters := t.awaiters[a := CloseUntransferred(w, outcome)])
      else
        var done := w.(status := outcome, registered := false, continuation := false, child := Transferred);
        Resume(t.(awaiters := t.awaiters[a := done]), a)
  }

  function Step(s: State, e: Event): State {
    if !Enabled(s, e) then s else
    match e
    case Accept(_, _, _, _, _) => AcceptStep(s, e)
    case Connection(status, acceptStatus) => ConnectionStep(s, status, acceptStatus)
    case Stop(a) =>
      var t := s.(awaiters := s.awaiters[a := s.awaiters[a].(registered := false)]);
      if s.slot == Some(a) then Quiesce(t) else t
    case CloseListener =>
      if s.closing then s
      else
        var t := Quiesce(s.(closing := true));
        t.(listenerCloses := t.listenerCloses + 1)
    case ChildClosed(a) =>
      var w := s.awaiters[a];
      var t := s.(awaiters := s.awaiters[a := w.(child := Closed, closeCompleted := true, waitsForClose := false)]);
      if w.waitsForClose then Resume(t, a) else t
  }

  function Run(s: State, es: seq<Event>): State {
    if es == [] then s else Step(Run(s, es[..|es| - 1]), es[|es| - 1])
  }

  // ----- The invariant -----

  function Resumes(log: seq<Resumption>, a: nat): nat {
    if log == [] then 0
    else Resumes(log[..|log| - 1], a) + (if log[|log| - 1].awaiter == a then 1 else 0)
  }

  lemma ResumesAppend(log: seq<Resumption>, r: Resumption, a: nat)
    ensures Resumes(log + [r], a) == Resumes(log, a) + (if r.awaiter == a then 1 else 0)
  {
    assert (log + [r])[..|log|] == log;
  }

  /** The awaiter holds the slot: nothing about it has been given away. */
  predicate Armed(w: Awaiter) {
    w.suspended && w.continuation && w.child == Provisional
    && !w.waitsForClose && !w.closeRequired && !w.closeCompleted && w.nativeCloses == 0
  }

  /** Without the slot, every awaiter is in one of four situations, told apart by its child. */
  predicate Settled(w: Awaiter, resumes: nat) {
    && !w.continuation && !w.registered
    && match w.child
       case Absent => !w.suspended && w.status < 0 && resumes == 0 && NeverClosed(w)
       case Provisional => false
       case Transferred => w.suspended && w.status >= 0 && resumes == 1 && NeverClosed(w)
       case Closing => w.suspended && w.status < 0 && resumes == 0 && ClosedOnce(w) && w.waitsForClose
       case Closed =>
         w.suspended && w.status < 0 && resumes == 1 && ClosedOnce(w) && w.closeCompleted && !w.waitsForClose
  }

  predicate NeverClosed(w: Awaiter) {
    w.nativeCloses == 0 && !w.closeRequired && !w.closeCompleted && !w.waitsForClose
  }

  predicate ClosedOnce(w: Awaiter) {
    w.nativeCloses == 1 && w.closeRequired
  }

  predicate AwaiterInv(s: State, a: nat)
    requires a < |s.awaiters|
  {
    if s.slot == Some(a) then Armed(s.awaiters[a]) && Resumes(s.resumptions, a) == 0
    else Settled(s.awaiters[a], Resumes(s.resumptions, a))
  }

  /** A task resumes with its slot and its stop registration released, and after a failure with its child closed. */
  predicate CleanResumption(r: Resumption) {
    r.slotFree && r.unregistered && r.child == (if r.status < 0 then Closed else Transferred)
  }

  predicate Inv(s: State) {
    Slots(s) && s.listenerCloses == (if s.closing then 1 else 0)
  }

  predicate Slots(s: State) {
    && (s.slot.Some? ==> s.slot.value < |s.awaiters| && !s.closing)
    && (forall a :: 0 <= a < |s.awaiters| ==> AwaiterInv(s, a))
    && (forall i :: 0 <= i < |s.resumptions| ==>
          s.resumptions[i].awaiter < |s.awaiters| && CleanResumption(s.resumptions[i]))
  }

  /** A step that changes only awaiter `b`, and resumes at most `b`, concerns no other awaiter. */
  lemma OthersUntouched(s: State, t: State, b: nat)
    requires Slots(s) && b < |s.awaiters| == |t.awaiters|
    requires forall a :: 0 <= a < |s.awaiters| && a != b ==> t.awaiters[a] == s.awaiters[a]
    requires forall a :: 0 <= a < |s.awaiters| && a != b ==> (s.slot == Some(a) <==> t.slot == Some(a))
    requires t.resumptions == s.resumptions
             || (t.resumptions != [] && t.resumptions[..|t.resumptions| - 1] == s.resumptions
                 && t.resumptions[|t.resumptions| - 1].awaiter == b)
    ensures forall a :: 0 <= a < |s.awaiters| && a != b ==> AwaiterInv(t, a)
  {
    forall a | 0 <= a < |s.awaiters| && a != b
      ensures AwaiterInv(t, a)
    {
      assert AwaiterInv(s, a);
    }
  }

  lemma QuiesceKeepsInv(s: State)
    requires Slots(s.(closing := false))
    ensures Slots(Quiesce(s)) && Quiesce(s).slot == None && Quiesce(s).closing == s.closing
  {
    var t := s.(closing := false);
    if s.slot.Some? {
      var b := s.slot.value;
      assert AwaiterInv(t, b);
      OthersUntouched(t, Quiesce(s), b);
    } else {
      forall a | 0 <= a < |s.awaiters|
        ensures AwaiterInv(Quiesce(s), a)
      {
        assert AwaiterInv(t, a);
      }
    }
  }

  lemma AcceptKeepsInv(s: State, e: Event)
    requires Slots(s) && e.Accept?
    ensures Slots(Step(s, e))
  {
    if !s.closing && !e.sameLoop {
      assert Step(s, e) == s;
    } else if !s.closing && !e.stopRequested && s.slot == None && e.initStatus >= 0 {
      ArmKeepsInv(s, e);
    } else {
      RejectKeepsInv(s, e);
    }
  }

  lemma ArmKeepsInv(s: State, e: Event)
    requires Slots(s) && e.Accept? && !s.closing && e.sameLoop && !e.stopRequested
    requires s.slot == None && e.initStatus >= 0
    ensures Slots(Step(s, e))
  {
    var n := |s.awaiters|;
    NotResumedYet(s.resumptions, n);
    var t := Arm(s, e);
    forall a | 0 <= a < n
      ensures AwaiterInv(t, a)
    {
      assert AwaiterInv(s, a);
    }
    assert AwaiterInv(t, n);
    assert Slots(t);
    if e.cancellable && !e.registers {
      QuiesceKeepsInv(t);
    }
  }

  lemma RejectKeepsInv(s: State, e: Event)
    requires Slots(s) && e.Accept? && (s.closing || e.sameLoop)
    requires s.closing || e.stopRequested || s.slot.Some? || e.initStatus < 0
    ensures Slots(Step(s, e))
  {
    var n, t := |s.awaiters|, Step(s, e);
    NotResumedYet(s.resumptions, n);
    forall a | 0 <= a < n
      ensures AwaiterInv(t, a)
    {
      assert AwaiterInv(s, a);
    }
    assert AwaiterInv(t, n);
  }

  lemma {:induction false} NotResumedYet(log: seq<Resumption>, n: nat)
    requires forall i :: 0 <= i < |log| ==> log[i].awaiter < n
    ensures Resumes(log, n) == 0
  {
    if log != [] {
      NotResumedYet(log[..|log| - 1], n);
    }
  }

  lemma ConnectionKeepsInv(s: State, status: int, acceptStatus: int)
    requires Slots(s)
    ensures Slots(ConnectionStep(s, status, acceptStatus))
  {
    var t := ConnectionStep(s, status, acceptStatus);
    if !s.closing && s.slot.Some? {
      var b := s.slot.value;
      assert AwaiterInv(s, b);
      OthersUntouched(s, t, b);
      if t.resumptions != s.resumptions {
        ResumesAppend(s.resumptions, t.resumptions[|s.resumptions|], b);
      }
      assert AwaiterInv(t, b);
    }
  }

  lemma StopKeepsInv(s: State, a: nat)
    requires Slots(s) && Enabled(s, Stop(a))
    ensures Slots(Step(s, Stop(a)))
  {
    assert AwaiterInv(s, a);
    var t := s.(awaiters := s.awaiters[a := s.awaiters[a].(registered := false)]);
    OthersUntouched(s, t, a);
    assert AwaiterInv(t, a);
    QuiesceKeepsInv(t);
  }

  lemma ChildClosedKeepsInv(s: State, a: nat)
    requires Slots(s) && Enabled(s, ChildClosed(a))
    ensures Slots(Step(s, ChildClosed(a)))
  {
    assert AwaiterInv(s, a);
    var t := Step(s, ChildClosed(a));
    assert t.resumptions == s.resumptions + [t.resumptions[|s.resumptions|]];
    ResumesAppend(s.resumptions, t.resumptions[|s.resumptions|], a);
    OthersUntouched(s, t, a);
    assert AwaiterInv(t, a);
  }

  lemma StepKeepsInv(s: State, e: Event)
    requires Inv(s)
    ensures Inv(Step(s, e))
  {
    if Enabled(s, e) {
      match e
      case Accept(_, _, _, _, _) => AcceptKeepsInv(s, e);
      case Connection(status, acceptStatus) => ConnectionKeepsInv(s, status, acceptStatus);
      case Stop(a) => StopKeepsInv(s, a);
      case CloseListener => CloseKeepsInv(s);
      case ChildClosed(a) => ChildClosedKeepsInv(s, a);
    }
    StepKeepsCloses(s, e);
  }

  lemma CloseKeepsInv(s: State)
    requires Slots(s)
    ensures Slots(Step(s, CloseListener))
  {
    if !s.closing {
      var t, u := Quiesce(s.(closing := true)), Step(s, CloseListener);
      QuiesceKeepsInv(s.(closing := true));
      forall a | 0 <= a < |u.awaiters|
        ensures AwaiterInv(u, a)
      {
        assert AwaiterInv(t, a);
      }
    }
  }

  lemma StepKeepsCloses(s: State, e: Event)
    ensures Step(s, e).listenerCloses == s.listenerCloses + (if e.CloseListener? && !s.closing then 1 else 0)
    ensures Step(s, e).closing == (s.closing || e.CloseListener?)
  {
  }

  lemma {:induction false} RunKeepsInv(es: seq<Event>)
    ensures Inv(Run(Init, es))
  {
    if es != [] {
      RunKeepsInv(es[..|es| - 1]);
      StepKeepsInv(Run(Init, es[..|es| - 1]), es[|es| - 1]);
    }
  }

  // ----- Theorems over every run -----

  /**
  The child of an accept that got as far as initialising one is provisional exactly while its
  awaiter holds the slot. After that it has been handed to one connection owner or natively
  closed once, never both, and which of the two is decided by the status the task sees.
  */
  lemma {:induction false} ChildIsTransferredOrClosed(es: seq<Event>, a: nat)
    ensures var s := Run(Init, es);
            a < |s.awaiters| ==>
              var w := s.awaiters[a];
              && (w.child == Provisional <==> s.slot == Some(a))
              && (w.suspended <==> w.child != Absent)
              && w.nativeCloses == (if w.child == Closing || w.child == Closed then 1 else 0)
              && (w.suspended && s.slot != Some(a) ==> (w.child == Transferred <==> w.status >= 0))
  {
    RunKeepsInv(es);
    var s := Run(Init, es);
    if a < |s.awaiters| {
      assert AwaiterInv(s, a);
    }
  }

  /**
  A suspended accept is resumed exactly once. It is resumed with the listener's slot and its
  stop registration released; after an error, a stop or the listener's close it is resumed only
  from the completed close of its child. An accept that was not resumed yet still holds the
  slot, or waits for a close callback that is certain to come.
  */
  lemma {:induction false} AcceptResumesOnce(es: seq<Event>, a: nat)
    ensures var s := Run(Init, es);
            && (forall i :: 0 <= i < |s.resumptions| ==> CleanResumption(s.resumptions[i]))
            && (a < |s.awaiters| ==>
                  && Resumes(s.resumptions, a) <= 1
                  && (!s.awaiters[a].suspended ==> Resumes(s.resumptions, a) == 0 && s.awaiters[a].status < 0)
                  && (s.awaiters[a].suspended && Resumes(s.resumptions, a) == 0 ==>
                        s.slot == Some(a) || (Enabled(s, ChildClosed(a)) && s.awaiters[a].waitsForClose))
                  && (s.awaiters[a].closeRequired && Resumes(s.resumptions, a) == 1 ==> s.awaiters[a].closeCompleted))
  {
    RunKeepsInv(es);
    var s := Run(Init, es);
    if a < |s.awaiters| {
      assert AwaiterInv(s, a);
    }
  }

  /** The listener's own native close is submitted once, by the first close request, and finds the slot free. */
  lemma {:induction false} ListenerClosesOnce(es: seq<Event>)
    ensures var s := Run(Init, es);
            s.listenerCloses == (if CloseListener in es then 1 else 0) && (s.listenerCloses == 1 ==> s.slot == None)
  {
    RunKeepsInv(es);
    ClosingMeansRequested(es);
  }

  lemma {:induction false} ClosingMeansRequested(es: seq<Event>)
    ensures Run(Init, es).closing <==> CloseListener in es
  {
    if es != [] {
      ClosingMeansRequested(es[..|es| - 1]);
      StepKeepsCloses(Run(Init, es[..|es| - 1]), es[|es| - 1]);
      assert es == es[..|es| - 1] + [es[|es| - 1]];
    }
  }

  /** The close callback of an untransferred child resumes its task. */
  lemma {:induction false} ClosedChildResumesItsTask(es: seq<Event>, a: nat)
    requires Enabled(Run(Init, es), ChildClosed(a))
    ensures var t := Step(Run(Init, es), ChildClosed(a));
            && Resumes(t.resumptions, a) == 1
            && t.resumptions[|t.resumptions| - 1] == Resumption(a, t.awaiters[a].status, true, true, Closed)
            && t.awaiters[a].status < 0
  {
    RunKeepsInv(es);
    var s := Run(Init, es);
    assert AwaiterInv(s, a);
    StepKeepsInv(s, ChildClosed(a));
    assert AwaiterInv(Step(s, ChildClosed(a)), a);
  }

  /** Which call made an awaiter, and that the holder of the slot can be stopped if its task can. */
  predicate CallsMatch(s: State) {
    && |s.calls| == |s.awaiters|
    && (forall a :: 0 <= a < |s.calls| ==> s.calls[a].Accept?)
    && (s.slot.Some? && s.slot.value < |s.awaiters| ==>
          (s.awaiters[s.slot.value].registered <==> s.calls[s.slot.value].cancellable))
  }

  lemma StepKeepsCalls(s: State, e: Event)
    requires Slots(s) && CallsMatch(s)
    ensures CallsMatch(Step(s, e))
  {
    if Enabled(s, e) {
      match e
      case Accept(_, _, _, _, _) => AcceptKeepsCalls(s, e);
      case Stop(a) => StopKeepsCalls(s, a);
      case ChildClosed(a) => assert AwaiterInv(s, a);
      case _ =>
    }
  }

  lemma AcceptKeepsCalls(s: State, e: Event)
    requires Slots(s) && CallsMatch(s) && e.Accept?
    ensures CallsMatch(AcceptStep(s, e))
  {
  }

  lemma StopKeepsCalls(s: State, a: nat)
    requires Slots(s) && CallsMatch(s) && Enabled(s, Stop(a))
    ensures CallsMatch(Step(s, Stop(a)))
  {
    assert AwaiterInv(s, a);
  }

  lemma {:induction false} RunKeepsCalls(es: seq<Event>)
    ensures CallsMatch(Run(Init, es))
  {
    if es != [] {
      RunKeepsCalls(es[..|es| - 1]);
      RunKeepsInv(es[..|es| - 1]);
      StepKeepsCalls(Run(Init, es[..|es| - 1]), es[|es| - 1]);
    }
  }

  /**
  In every run a stop request reaches the accept that is armed if and only if its task can be
  cancelled. It then frees the slot, closes the child with `UV_ECANCELED`, leaves everyone else
  alone, and the close of the child resumes the task.
  */
  lemma {:induction false} StopReachesTheArmedAccept(es: seq<Event>, a: nat)
    requires Run(Init, es).slot == Some(a)
    ensures var s := Run(Init, es);
            a < |s.awaiters| == |s.calls| && s.calls[a].Accept? &&
            var t := Step(s, Stop(a));
            if s.calls[a].cancellable then
              && t.slot == None && t.awaiters == s.awaiters[a := CloseUntransferred(s.awaiters[a], UV_ECANCELED)]
              && t.awaiters[a].status == UV_ECANCELED && t.awaiters[a].child == Closing
              && Enabled(t, ChildClosed(a)) && t.awaiters[a].waitsForClose
            else t == s
  {
    RunKeepsInv(es);
    RunKeepsCalls(es);
    var s := Run(Init, es);
    assert AwaiterInv(s, a);
    if s.calls[a].cancellable {
      assert s.awaiters[a := s.awaiters[a].(registered := false)][a := CloseUntransferred(s.awaiters[a], UV_ECANCELED)]
          == s.awaiters[a := CloseUntransferred(s.awaiters[a], UV_ECANCELED)];
    }
  }

  /**
  In every run a connection notification and the listener's close end the accept that is armed
  and touch nobody else. A connection that libuv accepts resumes the task at once with the child
  as its result; anything else closes the child with the failing status.
  */
  lemma {:induction false} ArmedAcceptEnds(es: seq<Event>, a: nat, status: int, acceptStatus: int)
    requires Run(Init, es).slot == Some(a)
    ensures var s := Run(Init, es);
            a < |s.awaiters| &&
            var t, u := Step(s, Connection(status, acceptStatus)), Step(s, CloseListener);
            && t.slot == None == u.slot
            && (forall b :: 0 <= b < |s.awaiters| && b != a ==>
                  t.awaiters[b] == s.awaiters[b] == u.awaiters[b])
            && u.awaiters[a].status == UV_ECANCELED && u.awaiters[a].child == Closing && u.resumptions == s.resumptions
            && (if status >= 0 && acceptStatus >= 0 then
                  && t.awaiters[a].child == Transferred
                  && t.resumptions == s.resumptions + [Resumption(a, acceptStatus, true, true, Transferred)]
                else
                  && t.awaiters[a].child == Closing && t.resumptions == s.resumptions
                  && t.awaiters[a].status == (if status >= 0 then acceptStatus else status))
  {
    RunKeepsInv(es);
    assert AwaiterInv(Run(Init, es), a);
  }

  // ----- The listener object -----

  datatype AcceptAnswer = WrongLoop | Refused(status: int) | Suspends

  /** `tcp_listener_state` with its `accept_slot`, and the awaiters that have used it. */
  class Listener {
    var closing: bool
    var slot: Option<nat>
    var awaiters: seq<Awaiter>
    ghost var m: State

    ghost predicate Valid()
      reads this
    {
      Inv(m) && m.closing == closing && m.slot == slot && m.awaiters == awaiters
    }

    constructor ()
      ensures Valid() && m == Init
    {
      closing, slot, awaiters := false, None, [];
      m := Init;
    }

    /** Detaches the claim before anything is done with it. */
    method ReleaseSlot() returns (released: Option<nat>)
      modifies this`slot
      ensures released == old(slot) && slot == None
    {
      released := slot;
      slot := None;
    }

    /** `close_untransferred_connection`, with the status already chosen and the registration removed. */
    method CloseChild(a: nat, status: int)
      requires a < |awaiters|
      modifies this`awaiters
      ensures awaiters == old(awaiters)[a := CloseUntransferred(old(awaiters)[a], status)]
    {
      var w := awaiters[a];
      w := w.(status := status, registered := false);
      var continuation := w.continuation;
      w := w.(continuation := false);
      w := w.(closeRequired := true, child := Closing, nativeCloses := w.nativeCloses + 1);
      w := w.(waitsForClose := continuation);
      awaiters := awaiters[a := w];
    }

    method QuiesceAccept()
      requires slot.Some? ==> slot.value < |awaiters|
      modifies this`slot, this`awaiters
      ensures slot == None
      ensures awaiters == (if old(slot) == None then old(awaiters)
                           else old(awaiters)[old(slot).value :=
                                  CloseUntransferred(old(awaiters)[old(slot).value], UV_ECANCELED)])
    {
      var released := ReleaseSlot();
      if released.Some? {
        CloseChild(released.value, UV_ECANCELED);
      }
    }

    /** `accept_awaiter::await_suspend`. */
    method AwaitAccept(sameLoop: bool, stopRequested: bool, cancellable: bool, registers: bool, initStatus: int)
      returns (answer: AcceptAnswer)
      requires Valid()
      modifies this
      ensures Valid() && m == Step(old(m), Accept(sameLoop, stopRequested, cancellable, registers, initStatus))
      ensures answer == (if closing then Refused(UV_EBADF) else if !sameLoop then WrongLoop
                         else if stopRequested then Refused(UV_ECANCELED) else if old(slot).Some? then Refused(UV_EBUSY)
                         else if initStatus < 0 then Refused(initStatus) else Suspends)
      ensures answer == WrongLoop ==> m == old(m)
      ensures answer != WrongLoop ==> |awaiters| == |old(awaiters)| + 1
      ensures answer.Refused? ==> awaiters == old(awaiters) + [Rejected(answer.status)] && slot == old(slot)
      ensures answer == Suspends ==> (slot == Some(|old(awaiters)|) <==> (cancellable ==> registers))
      ensures answer == Suspends && (cancellable ==> registers) ==>
                awaiters[|old(awaiters)|] ==
                Awaiter(true, true, cancellable, initStatus, Provisional, false, false, false, 0)
      ensures answer == Suspends && cancellable && !registers ==>
                awaiters[|old(awaiters)|].status == UV_ECANCELED && awaiters[|old(awaiters)|].child == Closing
      ensures awaiters[..|old(awaiters)|] == old(awaiters)
    {
      StepKeepsInv(m, Accept(sameLoop, stopRequested, cancellable, registers, initStatus));
      m := Step(m, Accept(sameLoop, stopRequested, cancellable, registers, initStatus));
      if !closing && !sameLoop {
        return WrongLoop;
      }
      var status := if closing then UV_EBADF
                    else if stopRequested then UV_ECANCELED
                    else if slot.Some? then UV_EBUSY
                    else initStatus;
      if status < 0 {
        awaiters := awaiters + [Rejected(status)];
        return Refused(status);
      }
      awaiters := awaiters + [Awaiter(true, true, false, initStatus, Provisional, false, false, false, 0)];
      var a := |awaiters| - 1;
      slot := Some(a);
      if cancellable {
        if registers {
          awaiters := awaiters[a := awaiters[a].(registered := true)];
        } else {
          QuiesceAccept();
        }
      }
      answer := Suspends;
    }

    /** `on_connection`: the task to resume, when the child was accepted. */
    method OnConnection(status: int, acceptStatus: int) returns (resumed: Option<nat>)
      requires Valid()
      modifies this
      ensures Valid() && m == Step(old(m), Connection(status, acceptStatus))
      ensures resumed.Some? <==> old(slot).Some? && status >= 0 && acceptStatus >= 0
      ensures resumed.Some? ==> resumed == old(slot) && awaiters[resumed.value].child == Transferred
                                && awaiters[resumed.value].status == acceptStatus
      ensures resumed.Some? ==>
                m.resumptions == old(m.resumptions) + [Resumption(resumed.value, acceptStatus, true, true, Transferred)]
      ensures resumed == None ==> m.resumptions == old(m.resumptions)
      ensures slot == None
      ensures old(slot).Some? && resumed == None ==>
                awaiters[old(slot).value].status == (if status >= 0 then acceptStatus else status)
                && awaiters[old(slot).value].child == Closing
    {
      StepKeepsInv(m, Connection(status, acceptStatus));
      m := Step(m, Connection(status, acceptStatus));
      resumed := None;
      if closing {
        return;
      }
      var released := ReleaseSlot();
      if released.Some? {
        var a := released.value;
        awaiters := awaiters[a := awaiters[a].(registered := false)];
        var outcome := if status >= 0 then acceptStatus else status;
        if outcome < 0 {
          CloseChild(a, outcome);
        } else {
          awaiters := awaiters[a := awaiters[a].(status := outcome, continuation := false, child := Transferred)];
          resumed := Some(a);
        }
      }
    }

    /** The stop callback of awaiter `a`; the cancellation state has already removed its registration. */
    method OnStopRequested(a: nat)
      requires Valid() && Enabled(m, Stop(a))
      modifies this
      ensures Valid() && m == Step(old(m), Stop(a))
      ensures !awaiters[a].registered && slot != Some(a)
      ensures old(slot) == Some(a) ==> awaiters[a].status == UV_ECANCELED && awaiters[a].child == Closing
    {
      StepKeepsInv(m, Stop(a));
      m := Step(m, Stop(a));
      awaiters := awaiters[a := awaiters[a].(registered := false)];
      if slot == Some(a) {
        QuiesceAccept();
      }
    }

    method RequestClose() returns (initiated: bool)
      requires Valid()
      modifies this
      ensures Valid() && m == Step(old(m), CloseListener)
      ensures initiated <==> !old(closing)
      ensures closing && slot == None && m.listenerCloses == 1
      ensures old(slot).Some? ==>
                awaiters[old(slot).value].status == UV_ECANCELED && awaiters[old(slot).value].child == Closing
    {
      StepKeepsInv(m, CloseListener);
      m := Step(m, CloseListener);
      initiated := !closing;
      if initiated {
        closing := true;
        QuiesceAccept();
      }
    }

    /** The untransferred child's close callback resumes the task that waits for it. */
    method OnChildClosed(a: nat) returns (resumed: bool)
      requires Valid() && Enabled(m, ChildClosed(a))
      modifies this
      ensures Valid() && m == Step(old(m), ChildClosed(a))
      ensures resumed && awaiters[a].closeCompleted && awaiters[a].status < 0
    {
      assert AwaiterInv(m, a);
      StepKeepsInv(m, ChildClosed(a));
      m := Step(m, ChildClosed(a));
      assert AwaiterInv(m, a);
      resumed := awaiters[a].waitsForClose;
      awaiters := awaiters[a := awaiters[a].(child := Closed, closeCompleted := true, waitsForClose := false)];
    }
  }
}
