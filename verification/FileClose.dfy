/**
`file_state`: one descriptor, exclusive read and write slots, and a native close that several
tasks may join. The file, every awaiter and the close callback share the state; it goes away
with the last of them. Joiners are linked through nodes that live in their own coroutine
frames, so a node is gone as soon as its task has been resumed, and what a resumed task does
next may drop the file, close it again or start a transfer.

An awaiter is known by its serial number and is awaited at most once.
*/
module FileClose {

  import opened Options

  const UV_EBADF := -9
  const UV_EBUSY := -16
  const UV_ECANCELED := -125

  /** `Delivery` is the reference that the close callback keeps on its own stack. */
  datatype Holder = Owner | Awaiter(id: nat) | Delivery

  datatype Resumption = Resumption(waiter: nat, status: int)

  datatype State = State(
    descriptor: int,
    reading: Option<nat>,
    writing: Option<nat>,
    closeActive: bool,
    closeComplete: bool,
    closeStatus: int,
    // the linked list, from its head
    waiters: seq<nat>,
    // nodes detached by the close callback and not resumed yet
    delivering: seq<nat>,
    refs: set<Holder>,
    destroyed: bool,
    // history: awaiters made and awaited, transfers that suspended and that ended, closers that
    // suspended (latest first), their resumptions, native closes
    made: nat,
    awaited: set<nat>,
    started: seq<nat>,
    ended: seq<Resumption>,
    joined: seq<nat>,
    resumed: seq<Resumption>,
    submissions: nat,
    completions: nat)

  datatype Event =
    | MakeAwaiter
    | Transfer(id: nat, read: bool, sameLoop: bool, stopRequested: bool, empty: bool, submitStatus: int)
    | TransferDone(read: bool, status: int)
    | Close(id: nat, sameLoop: bool, submitStatus: int)
    | CloseDone(status: int)
    | ResumeNext
    | EndDelivery
    | DropAwaiter(id: nat)
    | DropOwner

  function Init(descriptor: int): State {
    State(descriptor, None, None, false, false, 0, [], [], {Owner}, false, 0, {}, [], [], [], [], 0, 0)
  }

  /** What user code can do, also from inside a resumed close waiter. */
  predicate Api(e: Event) {
    e.MakeAwaiter? || e.Transfer? || e.Close? || e.DropAwaiter? || e.DropOwner?
  }

  predicate IsOpen(s: State) {
    s.descriptor >= 0 && !s.closeActive && !s.closeComplete
  }

  /** The awaiter has suspended, so the frame that holds it cannot go away. */
  predicate InUse(s: State, id: nat) {
    s.reading == Some(id) || s.writing == Some(id) || id in s.waiters || id in s.delivering
  }

  /** Dropping a file that is open or has I/O under way ends the program, so it is not an event. */
  predicate Enabled(s: State, e: Event) {
    match e
    case MakeAwaiter => Owner in s.refs
    case Transfer(id, _, _, _, _, _) => Awaiter(id) in s.refs && id !in s.awaited
    case TransferDone(read, _) => if read then s.reading.Some? else s.writing.Some?
    case Close(id, _, _) => Awaiter(id) in s.refs && id !in s.awaited
    case CloseDone(_) => s.closeActive
    case ResumeNext => Delivery in s.refs && s.delivering != []
    case EndDelivery => Delivery in s.refs && s.delivering == []
    case DropAwaiter(id) => Awaiter(id) in s.refs && !InUse(s, id)
    case DropOwner => Owner in s.refs && !IsOpen(s) && s.reading == None && s.writing == None
  }

  /** A suspended transfer ends with its native completion, a suspended closer with the native close. */
  datatype Answer = WrongLoop | Immediate(status: int) | Suspends

  function AnswerToTransfer(s: State, read: bool, sameLoop: bool, stopRequested: bool, empty: bool,
                            submitStatus: int): Answer {
    if !IsOpen(s) then Immediate(UV_EBADF)
    else if !sameLoop then WrongLoop
    else if stopRequested then Immediate(UV_ECANCELED)
    else if empty then Immediate(0)
    else if (if read then s.reading else s.writing).Some? then Immediate(UV_EBUSY)
    else if submitStatus < 0 then Immediate(submitStatus)
    else Suspends
  }

  function AnswerToClose(s: State, sameLoop: bool, submitStatus: int): Answer {
    if !sameLoop then WrongLoop
    else if s.closeComplete then Immediate(s.closeStatus)
    else if s.closeActive then Suspends
    else if !IsOpen(s) then Immediate(UV_EBADF)
    else if s.reading.Some? || s.writing.Some? then Immediate(UV_EBUSY)
    else if submitStatus < 0 then Immediate(submitStatus)
    else Suspends
  }

  function Drop(s: State, h: Holder): State {
    var left := s.refs - {h};
    s.(refs := left, destroyed := s.destroyed || left == {})
  }

  /** The closer's node goes to the head of the list; the first one has submitted the native close. */
  function Join(s: State, id: nat): State {
    s.(closeActive := true, waiters := [id] + s.waiters, joined := [id] + s.joined,
       submissions := if s.closeActive then s.submissions else s.submissions + 1)
  }

  function Complete(s: State, status: int): State {
    s.(descriptor := -1, closeActive := false, closeComplete := true, closeStatus := status,
       delivering := s.waiters, waiters := [], refs := s.refs + {Delivery}, completions := s.completions + 1)
  }

  function Step(s: State, e: Event): State {
    if !Enabled(s, e) then s else
    match e
    case MakeAwaiter => s.(made := s.made + 1, refs := s.refs + {Awaiter(s.made)})
    case Transfer(id, read, sameLoop, stopRequested, empty, submitStatus) =>
      var t := s.(awaited := s.awaited + {id});
      if AnswerToTransfer(s, read, sameLoop, stopRequested, empty, submitStatus) != Suspends then t
      else if read then t.(reading := Some(id), started := t.started + [id])
      else t.(writing := Some(id), started := t.started + [id])
    case TransferDone(read, status) =>
      if read then s.(reading := None, ended := s.ended + [Resumption(s.reading.value, status)])
      else s.(writing := None, ended := s.ended + [Resumption(s.writing.value, status)])
    case Close(id, sameLoop, submitStatus) =>
      var t := s.(awaited := s.awaited + {id});
      if AnswerToClose(s, sameLoop, submitStatus) != Suspends then t else Join(t, id)
    case CloseDone(status) => Complete(s, status)
    case ResumeNext =>
      s.(delivering := s.delivering[1..], resumed := s.resumed + [Resumption(s.delivering[0], s.closeStatus)])
    case EndDelivery => Drop(s, Delivery)
    case DropAwaiter(id) => Drop(s, Awaiter(id))
    case DropOwner => Drop(s, Owner)
  }

  function Run(s: State, es: seq<Event>): State {
    if es == [] then s else Step(Run(s, es[..|es| - 1]), es[|es| - 1])
  }

  // ----- The invariant -----

  predicate CloseShape(s: State) {
    && (s.closeActive <==> s.waiters != [])
    && (s.closeActive ==> s.reading == None && s.writing == None && !s.closeComplete && s.descriptor >= 0)
    && (s.closeComplete ==> s.descriptor < 0 && s.reading == None && s.writing == None)
    && (s.delivering != [] ==> Delivery in s.refs)
    && (Delivery in s.refs ==> s.closeComplete)
    && s.submissions == (if s.closeActive || s.closeComplete then 1 else 0)
    && s.completions == (if s.closeComplete then 1 else 0)
    && (Owner !in s.refs ==> !IsOpen(s) && s.reading == None && s.writing == None)
    && (s.descriptor < 0 ==> s.reading == None && s.writing == None)
  }

  function Waiters(resumed: seq<Resumption>): seq<nat> {
    if resumed == [] then [] else Waiters(resumed[..|resumed| - 1]) + [resumed[|resumed| - 1].waiter]
  }

  predicate Distinct(ids: seq<nat>) {
    forall i, j :: 0 <= i < j < |ids| ==> ids[i] != ids[j]
  }

  predicate JoinShape(s: State) {
    && s.joined == Waiters(s.resumed) + s.delivering + s.waiters
    && Distinct(s.joined)
    && (forall i :: 0 <= i < |s.joined| ==> s.joined[i] in s.awaited)
    && (!s.closeComplete ==> s.resumed == [])
    && (forall i :: 0 <= i < |s.resumed| ==> s.resumed[i].status == s.closeStatus)
  }

  /** Whoever the state still has to reach holds a reference to it. */
  predicate RefShape(s: State) {
    && (s.destroyed <==> s.refs == {})
    && (forall id :: id in s.waiters ==> Awaiter(id) in s.refs)
    && (forall id :: id in s.delivering ==> Awaiter(id) in s.refs)
    && (s.reading.Some? ==> Awaiter(s.reading.value) in s.refs)
    && (s.writing.Some? ==> Awaiter(s.writing.value) in s.refs)
  }

  predicate Inv(s: State) {
    CloseShape(s) && JoinShape(s) && RefShape(s)
  }

  lemma StepKeepsInv(s: State, e: Event)
    requires Inv(s)
    ensures Inv(Step(s, e))
  {
    StepKeepsClose(s, e);
    StepKeepsJoin(s, e);
    StepKeepsRefs(s, e);
  }

  lemma StepKeepsClose(s: State, e: Event)
    requires CloseShape(s)
    ensures CloseShape(Step(s, e))
  {
  }

  lemma StepKeepsJoin(s: State, e: Event)
    requires CloseShape(s) && JoinShape(s)
    ensures JoinShape(Step(s, e))
  {
    if Enabled(s, e) {
      match e
      case Close(id, sameLoop, submitStatus) => CloseKeepsJoin(s, e);
      case CloseDone(status) =>
      case ResumeNext => ResumeKeepsJoin(s);
      case _ =>
    }
  }

  lemma CloseKeepsJoin(s: State, e: Event)
    requires CloseShape(s) && JoinShape(s) && e.Close? && Enabled(s, e)
    ensures JoinShape(Step(s, e))
  {
    if AnswerToClose(s, e.sameLoop, e.submitStatus) == Suspends {
      assert Waiters(s.resumed) == [];
      assert [] + [] + ([e.id] + s.waiters) == [e.id] + ([] + [] + s.waiters);
      assert e.id !in s.joined;
    }
  }

  lemma ResumeKeepsJoin(s: State)
    requires CloseShape(s) && JoinShape(s) && Enabled(s, ResumeNext)
    ensures JoinShape(Step(s, ResumeNext))
  {
    var first := Resumption(s.delivering[0], s.closeStatus);
    assert (s.resumed + [first])[..|s.resumed|] == s.resumed;
    MoveFirst(Waiters(s.resumed), s.delivering, s.waiters);
  }

  lemma MoveFirst(done: seq<nat>, next: seq<nat>, rest: seq<nat>)
    requires next != []
    ensures done + next + rest == done + [next[0]] + next[1..] + rest
  {
    assert next == [next[0]] + next[1..];
  }

  lemma StepKeepsRefs(s: State, e: Event)
    requires CloseShape(s) && RefShape(s)
    ensures RefShape(Step(s, e))
  {
    if Enabled(s, e) {
      match e
      case MakeAwaiter => assert Owner in s.refs;
      case Transfer(id, _, _, _, _, _) => assert Awaiter(id) in s.refs;
      case TransferDone(_, _) =>
      case Close(id, _, _) => assert Awaiter(id) in s.refs;
      case CloseDone(_) => CloseDoneKeepsRefs(s, e);
      case ResumeNext => assert Delivery in s.refs;
      case EndDelivery => DropKeepsRefs(s, Delivery);
      case DropAwaiter(id) => DropKeepsRefs(s, Awaiter(id));
      case DropOwner => DropKeepsRefs(s, Owner);
    }
  }

  lemma CloseDoneKeepsRefs(s: State, e: Event)
    requires CloseShape(s) && RefShape(s) && e.CloseDone? && Enabled(s, e)
    ensures RefShape(Step(s, e))
  {
    assert s.waiters[0] in s.waiters;
    assert Delivery in Step(s, e).refs;
  }

  lemma DropKeepsRefs(s: State, h: Holder)
    requires RefShape(s) && h in s.refs && (h.Awaiter? ==> !InUse(s, h.id))
    ensures RefShape(Drop(s, h))
  {
  }

  lemma {:induction false} RunKeepsInv(descriptor: int, es: seq<Event>)
    ensures Inv(Run(Init(descriptor), es))
  {
    if es != [] {
      RunKeepsInv(descriptor, es[..|es| - 1]);
      StepKeepsInv(Run(Init(descriptor), es[..|es| - 1]), es[|es| - 1]);
    }
  }

  // ----- Theorems over every run -----

  /**
  Every closer that suspends is resumed exactly once, with the status of the one native close
  and only after it; none is left over when the delivery ends, and a closer that comes later
  gets that same status at once.
  */
  lemma {:induction false} ClosersResumeOnce(descriptor: int, es: seq<Event>)
    ensures var s := Run(Init(descriptor), es);
            && s.joined == Waiters(s.resumed) + s.delivering + s.waiters && Distinct(s.joined)
            && (forall i :: 0 <= i < |s.resumed| ==> s.resumed[i].status == s.closeStatus)
            && (s.resumed != [] ==> s.completions == 1)
            && (s.closeComplete && Delivery !in s.refs ==> Waiters(s.resumed) == s.joined)
            && (s.closeActive ==> forall status :: Step(s, CloseDone(status)).closeStatus == status)
            && (s.closeComplete ==>
                  forall submitStatus :: AnswerToClose(s, true, submitStatus) == Immediate(s.closeStatus))
  {
    RunKeepsInv(descriptor, es);
  }

  /**
  The native close is submitted at most once and completes at most once; from its submission on
  no transfer is under way and none can begin, whatever resumed tasks try.
  */
  lemma {:induction false} OneCloseNeverOverTransfers(descriptor: int, es: seq<Event>)
    ensures var s := Run(Init(descriptor), es);
            && s.completions <= s.submissions <= 1
            && (s.submissions == 1 <==> s.closeActive || s.closeComplete)
            && (s.submissions == 1 ==> s.reading == None && s.writing == None)
            && (s.submissions == 1 ==> forall e: Event :: e.Transfer? ==>
                  Step(s, e).reading == None && Step(s, e).writing == None)
  {
    RunKeepsInv(descriptor, es);
  }

  /**
  The state goes away only when nobody can reach it any more: every closer has been resumed,
  no transfer is under way, the file was not left open, and no event is possible.
  */
  lemma {:induction false} StateOutlivesItsUsers(descriptor: int, es: seq<Event>)
    ensures var s := Run(Init(descriptor), es);
            && (s.closeActive || s.delivering != [] || s.reading.Some? || s.writing.Some? ==> !s.destroyed)
            && (s.destroyed ==>
                  Waiters(s.resumed) == s.joined && !IsOpen(s) && forall e :: !Enabled(s, e))
  {
    RunKeepsInv(descriptor, es);
    var s := Run(Init(descriptor), es);
    if s.waiters != [] {
      assert s.waiters[0] in s.waiters;
    }
    if s.delivering != [] {
      assert s.delivering[0] in s.delivering;
    }
  }

  /** The transfers that are under way. */
  function Slots(s: State): multiset<nat> {
    (if s.reading.Some? then multiset{s.reading.value} else multiset{}) +
    (if s.writing.Some? then multiset{s.writing.value} else multiset{})
  }

  /** Awaiters are numbered as they are made. */
  ghost predicate AwaiterShape(s: State) {
    && (forall id: nat :: Awaiter(id) in s.refs ==> id < s.made)
    && (forall id :: id in s.awaited ==> id < s.made)
  }

  /** A transfer that suspended has ended or holds its slot. */
  predicate TransferShape(s: State) {
    && (forall i :: 0 <= i < |s.started| ==> s.started[i] in s.awaited)
    && Distinct(s.started)
    && multiset(s.started) == multiset(Waiters(s.ended)) + Slots(s)
  }

  lemma StepKeepsAwaiters(s: State, e: Event)
    requires AwaiterShape(s)
    ensures AwaiterShape(Step(s, e))
  {
  }

  lemma StepKeepsTransfers(s: State, e: Event)
    requires TransferShape(s)
    ensures TransferShape(Step(s, e))
  {
    if Enabled(s, e) {
      match e
      case Transfer(id, read, sameLoop, stopRequested, empty, submitStatus) => TransferKeepsTransfers(s, e);
      case TransferDone(read, status) => DoneKeepsTransfers(s, read, status);
      case _ => OtherKeepsTransfers(s, e);
    }
  }

  lemma OtherKeepsTransfers(s: State, e: Event)
    requires !e.Transfer? && !e.TransferDone?
    ensures var t := Step(s, e);
            t.started == s.started && t.ended == s.ended && t.reading == s.reading && t.writing == s.writing
            && s.awaited <= t.awaited
  {
  }

  lemma TransferKeepsTransfers(s: State, e: Event)
    requires TransferShape(s) && e.Transfer? && Enabled(s, e)
    ensures TransferShape(Step(s, e))
  {
    TransferFields(s, e);
    var t := Step(s, e);
    if t.started != s.started {
      OneMoreStarted(s.started, e.id);
      assert e.id !in s.started;
      assert Slots(t) == Slots(s) + multiset{e.id};
    }
  }

  lemma TransferFields(s: State, e: Event)
    requires e.Transfer? && Enabled(s, e)
    ensures var t := Step(s, e);
            && t.awaited == s.awaited + {e.id} && t.ended == s.ended
            && (if t.started == s.started then t.reading == s.reading && t.writing == s.writing
                else
                  && t.started == s.started + [e.id]
                  && (if e.read then s.reading == None && t.reading == Some(e.id) && t.writing == s.writing
                      else s.writing == None && t.writing == Some(e.id) && t.reading == s.reading))
  {
  }

  lemma OneMoreStarted(started: seq<nat>, id: nat)
    ensures multiset(started + [id]) == multiset(started) + multiset{id}
  {
  }

  lemma DoneKeepsTransfers(s: State, read: bool, status: int)
    requires TransferShape(s) && Enabled(s, TransferDone(read, status))
    ensures TransferShape(Step(s, TransferDone(read, status)))
  {
    var r := Resumption((if read then s.reading else s.writing).value, status);
    var t := s.(reading := if read then None else s.reading, writing := if read then s.writing else None,
                ended := s.ended + [r]);
    assert Step(s, TransferDone(read, status)) == t;
    assert Slots(s) == Slots(t) + multiset{r.waiter};
    OneMoreEnded(s.ended, r);
  }

  lemma OneMoreEnded(ended: seq<Resumption>, r: Resumption)
    ensures multiset(Waiters(ended + [r])) == multiset(Waiters(ended)) + multiset{r.waiter}
  {
    assert (ended + [r])[..|ended|] == ended;
    assert Waiters(ended + [r]) == Waiters(ended) + [r.waiter];
    OneMoreStarted(Waiters(ended), r.waiter);
  }

  lemma {:induction false} RunKeepsTransfers(descriptor: int, es: seq<Event>)
    ensures AwaiterShape(Run(Init(descriptor), es)) && TransferShape(Run(Init(descriptor), es))
  {
    if es != [] {
      RunKeepsTransfers(descriptor, es[..|es| - 1]);
      StepKeepsAwaiters(Run(Init(descriptor), es[..|es| - 1]), es[|es| - 1]);
      StepKeepsTransfers(Run(Init(descriptor), es[..|es| - 1]), es[|es| - 1]);
    }
  }

  /**
  Every transfer that suspends is resumed exactly once, by the native completion of its own
  direction and with its status; until then it holds that direction's slot.
  */
  lemma {:induction false} TransfersResumeOnce(descriptor: int, es: seq<Event>, read: bool, status: int)
    ensures var s := Run(Init(descriptor), es);
            && Distinct(s.started) && multiset(s.started) == multiset(Waiters(s.ended)) + Slots(s)
            && var t := Step(s, TransferDone(read, status));
               var slot := if read then s.reading else s.writing;
               if slot == None then t == s
               else
                 && t.ended == s.ended + [Resumption(slot.value, status)]
                 && t.reading == (if read then None else s.reading)
                 && t.writing == (if read then s.writing else None)
  {
    RunKeepsTransfers(descriptor, es);
  }

  /** An awaiter made through the file can be awaited, once, also when the file has been dropped since. */
  lemma {:induction false} AwaiterIsAwaitedOnce(descriptor: int, es: seq<Event>, close: Event, transfer: Event)
    requires Owner in Run(Init(descriptor), es).refs
    requires close.Close? && transfer.Transfer? && close.id == transfer.id == Run(Init(descriptor), es).made
    ensures var s := Run(Init(descriptor), es);
            var t := Step(s, MakeAwaiter);
            && Awaiter(s.made) !in s.refs && Awaiter(s.made) in t.refs && !t.destroyed
            && Enabled(t, close) && Enabled(t, transfer)
            && Enabled(Step(t, DropOwner), close) && Enabled(Step(t, DropOwner), transfer)
            && !Enabled(Step(t, close), close) && !Enabled(Step(t, close), transfer)
            && !Enabled(Step(t, transfer), close) && !Enabled(Step(t, transfer), transfer)
  {
    RunKeepsInv(descriptor, es);
    RunKeepsTransfers(descriptor, es);
    var t := Step(Run(Init(descriptor), es), MakeAwaiter);
    MadeAwaiter(Run(Init(descriptor), es));
    AwaitedOnce(t, close, close);
    AwaitedOnce(t, close, transfer);
    AwaitedOnce(t, transfer, close);
    AwaitedOnce(t, transfer, transfer);
  }

  lemma MadeAwaiter(s: State)
    requires AwaiterShape(s) && RefShape(s) && Owner in s.refs
    ensures var t := Step(s, MakeAwaiter);
            && Awaiter(s.made) !in s.refs && t.refs == s.refs + {Awaiter(s.made)} && !t.destroyed
            && t.awaited == s.awaited && s.made !in t.awaited
  {
  }

  lemma AwaitedOnce(t: State, e: Event, again: Event)
    requires (e.Close? || e.Transfer?) && (again.Close? || again.Transfer?) && again.id == e.id
    requires Awaiter(e.id) in t.refs && e.id !in t.awaited
    ensures Enabled(t, e) && Enabled(Step(t, DropOwner), e) && !Enabled(Step(t, e), again)
  {
    assert e.id in Step(t, e).awaited;
  }

  /** The close keeps the status of its native completion for ever. */
  lemma {:induction false} CloseStatusIsFinal(s: State, es: seq<Event>)
    requires Inv(s) && s.closeComplete
    ensures Inv(Run(s, es)) && Run(s, es).closeComplete && Run(s, es).closeStatus == s.closeStatus
  {
    if es != [] {
      CloseStatusIsFinal(s, es[..|es| - 1]);
      StepKeepsInv(Run(s, es[..|es| - 1]), es[|es| - 1]);
      CompleteStaysComplete(Run(s, es[..|es| - 1]), es[|es| - 1]);
    }
  }

  lemma CompleteStaysComplete(s: State, e: Event)
    requires CloseShape(s) && s.closeComplete
    ensures Step(s, e).closeComplete && Step(s, e).closeStatus == s.closeStatus
  {
  }

  /** What happens next to a submitted close; `status` is how it completes. */
  function NextEvent(s: State, status: int): Event {
    if s.closeActive then CloseDone(status) else if s.delivering != [] then ResumeNext else EndDelivery
  }

  predicate Settling(s: State) {
    s.closeActive || Delivery in s.refs
  }

  function StepsLeft(s: State): nat {
    if s.closeActive then |s.waiters| + 2 else if Delivery in s.refs then |s.delivering| + 1 else 0
  }

  lemma SettlingMakesProgress(s: State, status: int)
    requires Inv(s) && Settling(s)
    ensures Enabled(s, NextEvent(s, status))
    ensures StepsLeft(Step(s, NextEvent(s, status))) < StepsLeft(s)
    ensures var t := Step(s, NextEvent(s, status)); t.joined == s.joined && (Settling(t) || t.closeComplete)
  {
  }

  function RemainingEvents(s: State, status: int): seq<Event>
    requires Inv(s)
    decreases StepsLeft(s)
  {
    if !Settling(s) then []
    else
      SettlingMakesProgress(s, status);
      StepKeepsInv(s, NextEvent(s, status));
      [NextEvent(s, status)] + RemainingEvents(Step(s, NextEvent(s, status)), status)
  }

  /** A submitted close always ends with every closer resumed. */
  lemma {:induction false} SubmittedCloseSettles(s: State, status: int)
    requires Inv(s) && (Settling(s) || s.closeComplete)
    ensures var t := Run(s, RemainingEvents(s, status));
            t.closeComplete && Waiters(t.resumed) == t.joined == s.joined
    decreases StepsLeft(s)
  {
    if Settling(s) {
      var e := NextEvent(s, status);
      SettlingMakesProgress(s, status);
      StepKeepsInv(s, e);
      SubmittedCloseSettles(Step(s, e), status);
      RunConcat(s, [e], RemainingEvents(Step(s, e), status));
      assert Run(s, [e]) == Step(s, e) by { assert [e][..0] == []; }
    }
  }

  lemma RunOneMore(s: State, es: seq<Event>, e: Event)
    ensures Run(s, es + [e]) == Step(Run(s, es), e)
  {
    assert (es + [e])[..|es|] == es;
  }

  lemma {:induction false} RunConcat(s: State, a: seq<Event>, b: seq<Event>)
    ensures Run(s, a + b) == Run(Run(s, a), b)
    decreases |b|
  {
    if b == [] {
      assert a + b == a;
    } else {
      var front := b[..|b| - 1];
      assert (a + b)[..|a + b| - 1] == a + front;
      RunConcat(s, a, front);
    }
  }

  // ----- The state object and the nodes of its list -----

  /**
  `close_waiter`, a node in the frame of a suspended closer. Once `resumed`, that frame may have
  been destroyed: no method may be called on the node any more.
  */
  class CloseWaiter {
    const id: nat
    var next: CloseWaiter?
    var resumed: bool
    var status: int

    constructor (id: nat)
      ensures this.id == id && !resumed && next == null
    {
      this.id := id;
      next, resumed, status := null, false, 0;
    }

    method Link(next: CloseWaiter?)
      requires !resumed
      modifies this`next
      ensures this.next == next
    {
      this.next := next;
    }

    method Next() returns (n: CloseWaiter?)
      requires !resumed
      ensures n == next
    {
      n := next;
    }

    method Resume(status: int)
      requires !resumed
      modifies this`resumed, this`status
      ensures resumed && this.status == status
    {
      this.status := status;
      resumed := true;
    }
  }

  lemma WaitersAreDistinct(s: State)
    requires Inv(s) && s.closeActive
    ensures Distinct(s.waiters)
  {
    assert s.joined == [] + [] + s.waiters == s.waiters;
  }

  ghost function At(nodes: seq<CloseWaiter>, i: nat): CloseWaiter? {
    if i < |nodes| then nodes[i] else null
  }

  /** Node `i` of the chain waits under its serial number and links to the next one. */
  ghost predicate Linked(nodes: seq<CloseWaiter>, ids: seq<nat>, i: nat)
    requires i < |nodes| == |ids|
    reads nodes[i]
  {
    nodes[i].id == ids[i] && nodes[i].next == At(nodes, i + 1) && !nodes[i].resumed
  }

  ghost predicate Chain(nodes: seq<CloseWaiter>, ids: seq<nat>)
    reads nodes
  {
    |nodes| == |ids| && forall i :: 0 <= i < |nodes| ==> Linked(nodes, ids, i)
  }

  lemma ChainIsDistinct(nodes: seq<CloseWaiter>, ids: seq<nat>)
    requires Chain(nodes, ids) && Distinct(ids)
    ensures forall i, j :: 0 <= i < j < |nodes| ==> nodes[i] != nodes[j]
  {
    forall i, j | 0 <= i < j < |nodes|
      ensures nodes[i] != nodes[j]
    {
      assert Linked(nodes, ids, i) && Linked(nodes, ids, j);
    }
  }

  /** `file_state`. The ghost `m` adds the references, the delivery and the history to its fields. */
  class FileState {
    var descriptor: int
    var closeWaiters: CloseWaiter?
    var closeStatus: int
    var readActive: bool
    var writeActive: bool
    var closeActive: bool
    var closeComplete: bool
    /** The nodes reachable from `closeWaiters`, in list order. */
    ghost var list: seq<CloseWaiter>
    ghost var m: State

    ghost predicate Fields()
      reads this
    {
      && m.descriptor == descriptor && m.closeStatus == closeStatus
      && m.reading.Some? == readActive && m.writing.Some? == writeActive
      && m.closeActive == closeActive && m.closeComplete == closeComplete
      && closeWaiters == At(list, 0)
    }

    ghost predicate Valid()
      reads this, list
    {
      Fields() && Chain(list, m.waiters) && Inv(m)
    }

    constructor (descriptor: int)
      ensures Valid() && m == Init(descriptor) && list == []
    {
      this.descriptor := descriptor;
      closeWaiters, closeStatus := null, 0;
      readActive, writeActive, closeActive, closeComplete := false, false, false, false;
      list, m := [], Init(descriptor);
    }

    predicate Opened()
      reads this
    {
      descriptor >= 0 && !closeActive && !closeComplete
    }

    /**
    The read and write awaiters: an exclusive slot for each direction, which may overlap. An
    empty buffer completes at once without claiming anything. A stop that comes later asks
    libuv to cancel, and the slot is held until the transfer completes all the same.
    */
    method AwaitTransfer(id: nat, read: bool, sameLoop: bool, stopRequested: bool, empty: bool, submitStatus: int)
      returns (answer: Answer)
      requires Valid()
      requires var e := Transfer(id, read, sameLoop, stopRequested, empty, submitStatus);
               closeComplete || Enabled(m, e)
      modifies this
      ensures Valid() && list == old(list)
      ensures m == Step(old(m), Transfer(id, read, sameLoop, stopRequested, empty, submitStatus))
      ensures answer == (if !Opened() then Immediate(UV_EBADF) else if !sameLoop then WrongLoop
                         else if stopRequested then Immediate(UV_ECANCELED) else if empty then Immediate(0)
                         else if (if read then old(readActive) else old(writeActive)) then Immediate(UV_EBUSY)
                         else if submitStatus < 0 then Immediate(submitStatus) else Suspends)
      ensures readActive == (old(readActive) || (answer == Suspends && read))
      ensures writeActive == (old(writeActive) || (answer == Suspends && !read))
      ensures m.started == (if answer == Suspends then old(m.started) + [id] else old(m.started))
    {
      ghost var e := Transfer(id, read, sameLoop, stopRequested, empty, submitStatus);
      StepKeepsInv(m, e);
      m := Step(m, e);
      if !Opened() {
        return Immediate(UV_EBADF);
      }
      if !sameLoop {
        return WrongLoop;
      }
      if stopRequested {
        return Immediate(UV_ECANCELED);
      }
      if empty {
        return Immediate(0);
      }
      if (read && readActive) || (!read && writeActive) {
        return Immediate(UV_EBUSY);
      }
      SetSlot(read, true);
      if submitStatus < 0 {
        SetSlot(read, false);
        return Immediate(submitStatus);
      }
      answer := Suspends;
    }

    method SetSlot(read: bool, active: bool)
      modifies this`readActive, this`writeActive
      ensures readActive == (if read then active else old(readActive))
      ensures writeActive == (if read then old(writeActive) else active)
    {
      if read {
        readActive := active;
      } else {
        writeActive := active;
      }
    }

    /** The native completion frees the slot and resumes the transfer. */
    method FinishTransfer(read: bool, status: int)
      requires Valid() && Enabled(m, TransferDone(read, status))
      modifies this
      ensures Valid() && list == old(list) && m == Step(old(m), TransferDone(read, status))
      ensures readActive == (old(readActive) && !read) && writeActive == (old(writeActive) && read)
      ensures m.ended == old(m.ended) + [Resumption((if read then old(m.reading) else old(m.writing)).value, status)]
    {
      StepKeepsInv(m, TransferDone(read, status));
      m := Step(m, TransferDone(read, status));
      SetSlot(read, false);
    }

    /**
    `detail_close_awaiter::await_suspend`: the first close submits the native one, later ones
    join it, and one that comes after completion gets its status at once.
    */
    method AwaitClose(node: CloseWaiter, sameLoop: bool, submitStatus: int) returns (answer: Answer)
      requires Valid() && !node.resumed && node !in list
      requires closeComplete || Enabled(m, Close(node.id, sameLoop, submitStatus))
      modifies this, node
      ensures Valid() && m == Step(old(m), Close(node.id, sameLoop, submitStatus))
      ensures answer == (if !sameLoop then WrongLoop else if old(closeComplete) then Immediate(closeStatus)
                         else if old(closeActive) then Suspends else if !old(Opened()) then Immediate(UV_EBADF)
                         else if readActive || writeActive then Immediate(UV_EBUSY)
                         else if submitStatus < 0 then Immediate(submitStatus) else Suspends)
      ensures answer != Suspends ==> closeActive == old(closeActive)
      ensures m.submissions == old(m.submissions) + (if answer == Suspends && !old(closeActive) then 1 else 0)
      ensures answer == Suspends ==> list == [node] + old(list) && closeActive
      ensures answer != Suspends ==> list == old(list)
      ensures old(closeComplete) ==> unchanged(node) && closeComplete
    {
      ghost var e := Close(node.id, sameLoop, submitStatus);
      StepKeepsInv(m, e);
      ghost var ids := m.waiters;
      m := Step(m, e);
      if !sameLoop {
        return WrongLoop;
      }
      if closeComplete {
        return Immediate(closeStatus);
      }
      if !closeActive {
        if !Opened() {
          return Immediate(UV_EBADF);
        }
        if readActive || writeActive {
          return Immediate(UV_EBUSY);
        }
      }
      answer := Enlist(node, submitStatus, ids);
    }

    /** `add_waiter()`, and `uv_fs_close` by the first closer; a refused submission takes the node out again. */
    method Enlist(node: CloseWaiter, submitStatus: int, ghost ids: seq<nat>) returns (answer: Answer)
      requires Chain(list, ids) && !node.resumed && node !in list && closeWaiters == At(list, 0)
      requires closeActive <==> list != []
      modifies this`closeActive, this`closeWaiters, this`list, node
      ensures closeWaiters == At(list, 0)
      ensures answer == (if old(closeActive) || submitStatus >= 0 then Suspends else Immediate(submitStatus))
      ensures answer == Suspends ==>
                closeActive && list == [node] + old(list) && Chain(list, [node.id] + ids)
      ensures answer != Suspends ==> !closeActive && list == old(list)
    {
      var first := !closeActive;
      closeActive := true;
      node.Link(closeWaiters);
      closeWaiters := node;
      if first && submitStatus < 0 {
        closeWaiters, closeActive := null, false;
        return Immediate(submitStatus);
      }
      list := [node] + list;
      forall i | 0 <= i < |list|
        ensures Linked(list, [node.id] + ids, i)
      {
        assert i > 0 ==> old(Linked(list, ids, i - 1)) && list[i] in old(list);
      }
      answer := Suspends;
    }

    /** One call by user code after the close has completed. */
    method Act(e: Event)
      requires Valid() && Api(e) && closeComplete
      modifies this
      ensures Valid() && m == Step(old(m), e) && closeComplete && list == old(list) == []
      ensures closeStatus == old(closeStatus) && m.delivering == old(m.delivering)
      ensures m.joined == old(m.joined) && m.resumed == old(m.resumed)
      ensures Delivery in m.refs <==> Delivery in old(m.refs)
    {
      match e
      case Transfer(id, read, sameLoop, stopRequested, empty, submitStatus) =>
        var answer := AwaitTransfer(id, read, sameLoop, stopRequested, empty, submitStatus);
      case Close(id, sameLoop, submitStatus) =>
        CloseLater(id, sameLoop, submitStatus);
      case MakeAwaiter => Count(e);
      case DropAwaiter(_) => Count(e);
      case DropOwner => Count(e);
    }

    /** A close that finds the close complete and joins nothing. */
    method CloseLater(id: nat, sameLoop: bool, submitStatus: int)
      requires Valid() && closeComplete
      modifies this
      ensures Valid() && m == Step(old(m), Close(id, sameLoop, submitStatus)) && closeComplete && list == old(list)
      ensures closeStatus == old(closeStatus) && m.delivering == old(m.delivering)
      ensures m.joined == old(m.joined) && m.resumed == old(m.resumed) && m.refs == old(m.refs)
    {
      var node := new CloseWaiter(id);
      var answer := AwaitClose(node, sameLoop, submitStatus);
    }

    /** References come and go without a change of the fields. */
    method Count(e: Event)
      requires Valid() && (e.MakeAwaiter? || e.DropAwaiter? || e.DropOwner?)
      modifies this`m
      ensures Valid() && m == Step(old(m), e)
      ensures e.MakeAwaiter? && Owner in old(m.refs) ==> m.refs == old(m.refs) + {Awaiter(old(m.made))}
      ensures e.DropAwaiter? && Enabled(old(m), e) ==> m.refs == old(m.refs) - {Awaiter(e.id)}
      ensures e.DropOwner? && Enabled(old(m), e) ==> m.refs == old(m.refs) - {Owner}
    {
      StepKeepsInv(m, e);
      m := Step(m, e);
    }

    method Interleave(actions: seq<Event>)
      requires Valid() && closeComplete
      requires forall i :: 0 <= i < |actions| ==> Api(actions[i])
      modifies this
      ensures Valid() && m == Run(old(m), actions) && closeComplete && list == []
      ensures closeStatus == old(closeStatus) && m.delivering == old(m.delivering)
      ensures m.joined == old(m.joined) && m.resumed == old(m.resumed)
      ensures Delivery in m.refs <==> Delivery in old(m.refs)
    {
      assert list == [];
      for i := 0 to |actions|
        invariant Valid() && m == Run(old(m), actions[..i]) && closeComplete && list == []
        invariant closeStatus == old(closeStatus) && m.delivering == old(m.delivering)
        invariant m.joined == old(m.joined) && m.resumed == old(m.resumed)
        invariant Delivery in m.refs <==> Delivery in old(m.refs)
      {
        assert actions[..i + 1][..i] == actions[..i];
        Act(actions[i]);
      }
      assert actions[..|actions|] == actions;
    }

    /**
    The native close completed. The list is detached and the state is final before the first
    task is resumed; each node's link is read before its task is resumed, and no node is used
    afterwards. `others(i)` is what the i-th task does when it is resumed, which may include
    closing again, starting a transfer, and dropping its awaiter and the file.
    */
    method OnComplete(status: int, others: nat -> seq<Event>) returns (ghost trace: seq<Event>)
      requires Valid() && closeActive
      requires forall k: nat, i :: 0 <= i < |others(k)| ==> Api(others(k)[i])
      modifies this, list
      ensures Valid() && m == Run(old(m), trace)
      ensures closeComplete && closeStatus == status && list == []
      ensures Waiters(m.resumed) == m.joined == old(m.joined)
      ensures forall w :: w in old(list) ==> w.resumed && w.status == status
    {
      RunOneMore(m, [], CloseDone(status));
      trace := [] + [CloseDone(status)];
      ghost var nodes, ids := list, m.waiters;
      WaitersAreDistinct(m);
      var waiter := Detach(status);
      ghost var resuming := ResumeAll(waiter, status, others, nodes, ids);
      RunConcat(old(m), trace, resuming);
      trace := trace + resuming;
      RunOneMore(old(m), trace, EndDelivery);
      trace := trace + [EndDelivery];
      LeaveDelivery();
    }

    /** The first part of the callback, before any task is resumed. */
    method Detach(status: int) returns (first: CloseWaiter?)
      requires Valid() && closeActive
      modifies this
      ensures Valid() && m == Step(old(m), CloseDone(status))
      ensures closeComplete && closeStatus == status && list == [] && first == old(closeWaiters)
      ensures m.delivering == old(m.waiters) && Delivery in m.refs && m.joined == old(m.joined)
    {
      StepKeepsInv(m, CloseDone(status));
      m := Step(m, CloseDone(status));
      first := closeWaiters;
      descriptor := -1;
      closeActive, closeComplete, closeStatus, closeWaiters := false, true, status, null;
      list := [];
    }

    /** The loop of the callback over the detached nodes. */
    method ResumeAll(first: CloseWaiter?, status: int, others: nat -> seq<Event>,
                     ghost nodes: seq<CloseWaiter>, ghost ids: seq<nat>)
      returns (ghost trace: seq<Event>)
      requires Valid() && closeComplete && closeStatus == status && list == []
      requires Delivery in m.refs && m.delivering == ids && Distinct(ids)
      requires Chain(nodes, ids) && first == At(nodes, 0)
      requires forall k: nat, i :: 0 <= i < |others(k)| ==> Api(others(k)[i])
      modifies this, nodes
      ensures Valid() && m == Run(old(m), trace)
      ensures closeComplete && closeStatus == status && list == []
      ensures Delivery in m.refs && m.delivering == [] && m.joined == old(m.joined)
      ensures forall w :: w in nodes ==> w.resumed && w.status == status
    {
      ChainIsDistinct(nodes, ids);
      trace := [];
      var waiter, i := first, 0;
      while waiter != null
        invariant 0 <= i <= |nodes| && waiter == At(nodes, i)
        invariant Valid() && m == Run(old(m), trace)
        invariant closeComplete && closeStatus == status && list == []
        invariant Delivery in m.refs && m.delivering == ids[i..] && m.joined == old(m.joined)
        invariant forall k :: i <= k < |nodes| ==> Linked(nodes, ids, k)
        invariant forall k :: 0 <= k < i ==> nodes[k].resumed && nodes[k].status == status
        decreases |nodes| - i
      {
        assert Linked(nodes, ids, i);
        var next := waiter.Next();
        waiter.Resume(status);
        ghost var more := ResumeOne(others(i));
        RunConcat(old(m), trace, more);
        trace := trace + more;
        waiter, i := next, i + 1;
      }
    }

    /** A task has been resumed and makes its calls. */
    method ResumeOne(actions: seq<Event>) returns (ghost trace: seq<Event>)
      requires Valid() && closeComplete && list == [] && Enabled(m, ResumeNext)
      requires forall i :: 0 <= i < |actions| ==> Api(actions[i])
      modifies this
      ensures Valid() && m == Run(old(m), trace) && closeComplete && list == []
      ensures closeStatus == old(closeStatus) && m.delivering == old(m.delivering)[1..]
      ensures Delivery in m.refs && m.joined == old(m.joined)
    {
      RunOneMore(m, [], ResumeNext);
      trace := [] + [ResumeNext];
      RunConcat(m, trace, actions);
      TakeNext();
      Interleave(actions);
      trace := trace + actions;
    }

    method TakeNext()
      requires Valid() && closeComplete && list == [] && Enabled(m, ResumeNext)
      modifies this`m
      ensures Valid() && m == Step(old(m), ResumeNext)
      ensures m.delivering == old(m.delivering)[1..] && m.refs == old(m.refs) && m.joined == old(m.joined)
    {
      StepKeepsInv(m, ResumeNext);
      m := Step(m, ResumeNext);
    }

    /** The callback's own reference goes out of scope. */
    method LeaveDelivery()
      requires Valid() && closeComplete && Enabled(m, EndDelivery)
      modifies this
      ensures Valid() && m == Step(old(m), EndDelivery)
      ensures closeComplete && closeStatus == old(closeStatus) && list == old(list)
      ensures Waiters(m.resumed) == m.joined == old(m.joined)
    {
      StepKeepsInv(m, EndDelivery);
      m := Step(m, EndDelivery);
    }
  }
}
