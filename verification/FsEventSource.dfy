/**
`fs_event_source_state`: one native filesystem watch, one waiting task at most, and one bounded
pending outcome into which notifications are merged while nobody waits.

Flags are the set of raw flag bits, so `|=` is set union.
*/
module FsEventSource {

  import opened Options

  type Task = nat

  const UV_EBADF := -9
  const UV_EBUSY := -16
  const UV_ECANCELED := -125

  /** What libuv reports; `materialises` is whether copying the name succeeds. */
  datatype Notification = Notification(filename: Option<string>, flags: set<nat>, status: int, materialises: bool)

  /** What an awaiting task gets; `threw` is a C++ failure while copying the name. */
  datatype Outcome = Outcome(filename: Option<string>, flags: set<nat>, status: int, threw: bool)

  predicate Fails(n: Notification) {
    n.status < 0 || (n.filename.Some? && !n.materialises)
  }

  function OutcomeOf(n: Notification): Outcome {
    if n.status < 0 then Outcome(None, n.flags, n.status, false)
    else if Fails(n) then Outcome(None, n.flags, n.status, true)
    else Outcome(n.filename, n.flags, n.status, false)
  }

  predicate Failure(o: Outcome) {
    o.status < 0 || o.threw
  }

  /** An outcome together with the notifications it stands for. */
  datatype Consumption = Consumption(notifications: seq<Notification>, outcome: Outcome)

  /** How a suspended task came back: with an outcome, or with `UV_ECANCELED`. */
  datatype Resumption = Delivered(task: Task, outcome: Outcome) | Cancelled(task: Task)

  datatype State = State(
    closing: bool,
    waiter: Option<Task>,
    pending: Option<Outcome>,
    // history: notifications seen, those not consumed yet, those dropped by close, and what was consumed;
    // tasks that suspended, and how they were resumed
    seen: seq<Notification>,
    unconsumed: seq<Notification>,
    dropped: seq<Notification>,
    consumed: seq<Consumption>,
    suspended: seq<Task>,
    resumed: seq<Resumption>)

  datatype Event =
    | Notify(notification: Notification)
    | Next(task: Task, sameLoop: bool, stopRequested: bool, registers: bool)
    | Stop(task: Task)
    | Close

  const Init: State := State(false, None, None, [], [], [], [], [], [])

  /** A stop callback is registered exactly while its task holds the waiter slot. */
  predicate Enabled(s: State, e: Event) {
    e.Stop? ==> s.waiter == Some(e.task)
  }

  /** A later notification folded into a pending outcome. */
  function Merge(o: Outcome, n: Notification): Outcome {
    var event := OutcomeOf(n);
    if Failure(o) then o
    else if Failure(event) then event
    else o.(flags := o.flags + event.flags, filename := if o.filename != event.filename then None else o.filename)
  }

  function NotifyStep(s: State, n: Notification): State {
    if s.closing then s
    else
      var t := s.(seen := s.seen + [n]);
      if s.waiter.Some? && !(s.pending.Some? && Failure(s.pending.value))
      then t.(waiter := None, consumed := t.consumed + [Consumption([n], OutcomeOf(n))],
              resumed := t.resumed + [Delivered(s.waiter.value, OutcomeOf(n))])
      else t.(unconsumed := t.unconsumed + [n],
              pending := Some(if s.pending == None then OutcomeOf(n) else Merge(s.pending.value, n)))
  }

  datatype Answer = WrongLoop | Rejected(status: int) | Consumed(outcome: Outcome) | Suspends

  function AnswerToNext(s: State, sameLoop: bool, stopRequested: bool, registers: bool): Answer {
    if s.closing then Rejected(UV_EBADF)
    else if !sameLoop then WrongLoop
    else if stopRequested then Rejected(UV_ECANCELED)
    else if s.pending.Some? then Consumed(s.pending.value)
    else if s.waiter.Some? then Rejected(UV_EBUSY)
    else if !registers then Rejected(UV_ECANCELED)
    else Suspends
  }

  function Cancel(s: State): State {
    if s.waiter == None then s else s.(waiter := None, resumed := s.resumed + [Cancelled(s.waiter.value)])
  }

  function Step(s: State, e: Event): State {
    if !Enabled(s, e) then s else
    match e
    case Notify(n) => NotifyStep(s, n)
    case Next(task, sameLoop, stopRequested, registers) =>
      (match AnswerToNext(s, sameLoop, stopRequested, registers)
       case WrongLoop => s
       case Rejected(_) => s
       case Consumed(outcome) =>
         s.(pending := None, unconsumed := [], consumed := s.consumed + [Consumption(s.unconsumed, outcome)])
       case Suspends => s.(waiter := Some(task), suspended := s.suspended + [task]))
    case Stop(_) => Cancel(s)
    case Close =>
      if s.closing then s
      else Cancel(s.(closing := true)).(pending := None, unconsumed := [], dropped := s.unconsumed)
  }

  function Run(s: State, es: seq<Event>): State {
    if es == [] then s else Step(Run(s, es[..|es| - 1]), es[|es| - 1])
  }

  // ----- What an outcome means -----

  predicate FirstFailure(ns: seq<Notification>, i: nat) {
    i < |ns| && Fails(ns[i]) && forall j :: 0 <= j < i ==> !Fails(ns[j])
  }

  predicate AllSucceed(ns: seq<Notification>) {
    forall j :: 0 <= j < |ns| ==> !Fails(ns[j])
  }

  predicate SharedName(ns: seq<Notification>, name: string) {
    forall i :: 0 <= i < |ns| ==> ns[i].filename == Some(name)
  }

  predicate HasFlag(ns: seq<Notification>, flag: nat) {
    exists i :: 0 <= i < |ns| && flag in ns[i].flags
  }

  /**
  The meaning of one outcome for several notifications, said without reference to their
  merging: the first failure if there is one; otherwise every flag that any of them carried,
  and a name exactly when all of them carried that same name.
  */
  ghost predicate Summarises(ns: seq<Notification>, o: Outcome) {
    && ns != []
    && (forall i: nat :: FirstFailure(ns, i) ==> o == OutcomeOf(ns[i]))
    && (AllSucceed(ns) ==>
          && o.status == ns[0].status && !o.threw
          && (forall flag :: flag in o.flags <==> HasFlag(ns, flag))
          && (forall name :: o.filename == Some(name) <==> SharedName(ns, name)))
  }

  lemma {:induction false} FirstFailureExists(ns: seq<Notification>) returns (i: nat)
    requires !AllSucceed(ns)
    ensures FirstFailure(ns, i)
  {
    if AllSucceed(ns[..|ns| - 1]) {
      i := |ns| - 1;
    } else {
      i := FirstFailureExists(ns[..|ns| - 1]);
      assert forall j :: 0 <= j <= i ==> ns[j] == ns[..|ns| - 1][j];
    }
  }

  /** There is only one such outcome. */
  lemma SummaryIsUnique(ns: seq<Notification>, a: Outcome, b: Outcome)
    requires Summarises(ns, a) && Summarises(ns, b)
    ensures a == b
  {
    if AllSucceed(ns) {
      assert forall flag :: flag in a.flags <==> flag in b.flags;
      if a.filename.Some? {
        assert SharedName(ns, a.filename.value);
      }
      if b.filename.Some? {
        assert SharedName(ns, b.filename.value);
      }
    } else {
      var i := FirstFailureExists(ns);
    }
  }

  lemma FailureMeansSomeFailed(ns: seq<Notification>, o: Outcome)
    requires Summarises(ns, o)
    ensures Failure(o) <==> !AllSucceed(ns)
  {
    if !AllSucceed(ns) {
      var i := FirstFailureExists(ns);
    } else {
      assert !Fails(ns[0]);
    }
  }

  lemma OneSummarisesItself(n: Notification)
    ensures Summarises([n], OutcomeOf(n))
  {
    var o := OutcomeOf(n);
    if AllSucceed([n]) {
      assert !Fails([n][0]);
      forall flag
        ensures flag in o.flags <==> HasFlag([n], flag)
      {
        if flag in o.flags {
          assert flag in [n][0].flags;
        }
      }
    }
  }

  /** Merging one more notification is summarising one more. */
  lemma MergeSummarises(ns: seq<Notification>, o: Outcome, n: Notification)
    requires Summarises(ns, o)
    ensures Summarises(ns + [n], Merge(o, n))
  {
    var all := ns + [n];
    FailureMeansSomeFailed(ns, o);
    if AllSucceed(ns) {
      if Fails(n) {
        assert Fails(all[|ns|]);
        assert forall k :: 0 <= k < |ns| ==> all[k] == ns[k] && !Fails(all[k]);
      } else {
        MergeSuccess(ns, o, n);
      }
    } else {
      var i := FirstFailureExists(ns);
      assert FirstFailure(all, i);
      assert Fails(all[i]);
      forall k: nat | FirstFailure(all, k)
        ensures k == i
      {
      }
    }
  }

  lemma MergeSuccess(ns: seq<Notification>, o: Outcome, n: Notification)
    requires Summarises(ns, o) && AllSucceed(ns) && !Fails(n) && !Failure(o)
    ensures Summarises(ns + [n], Merge(o, n))
  {
    var all, merged := ns + [n], Merge(o, n);
    assert forall i :: 0 <= i < |ns| ==> all[i] == ns[i];
    assert all[|ns|] == n;
    forall flag
      ensures flag in merged.flags <==> HasFlag(all, flag)
    {
      if HasFlag(ns, flag) {
        var i :| 0 <= i < |ns| && flag in ns[i].flags;
        assert flag in all[i].flags;
      }
      if flag in n.flags {
        assert flag in all[|ns|].flags;
      }
    }
    forall name
      ensures merged.filename == Some(name) <==> SharedName(all, name)
    {
      if SharedName(all, name) {
        assert SharedName(ns, name);
      }
    }
  }

  // ----- The invariant -----

  function Flatten(cs: seq<Consumption>): seq<Notification> {
    if cs == [] then [] else Flatten(cs[..|cs| - 1]) + cs[|cs| - 1].notifications
  }

  lemma FlattenOneMore(cs: seq<Consumption>, c: Consumption)
    ensures Flatten(cs + [c]) == Flatten(cs) + c.notifications
  {
    assert (cs + [c])[..|cs|] == cs;
  }

  predicate Control(s: State) {
    && (s.waiter.Some? ==> s.pending == None && !s.closing)
    && (s.closing ==> s.pending == None)
    && (s.pending == None <==> s.unconsumed == [])
    && (!s.closing ==> s.dropped == [])
  }

  /** What is pending summarises what has not been consumed. */
  ghost predicate Inv(s: State) {
    Control(s) && (s.pending.Some? ==> Summarises(s.unconsumed, s.pending.value))
  }

  /** Every notification is accounted for, in order. */
  predicate Ledger(s: State) {
    s.seen == Flatten(s.consumed) + s.unconsumed + s.dropped
  }

  ghost predicate Past(s: State) {
    forall i :: 0 <= i < |s.consumed| ==> Summarises(s.consumed[i].notifications, s.consumed[i].outcome)
  }

  lemma StepKeepsInv(s: State, e: Event)
    requires Inv(s)
    ensures Inv(Step(s, e))
  {
    if Enabled(s, e) && e.Notify? && !s.closing {
      CollectKeepsInv(s, e.notification);
    }
  }

  lemma CollectKeepsInv(s: State, n: Notification)
    requires Inv(s) && !s.closing
    ensures Inv(NotifyStep(s, n))
  {
    if s.pending.Some? {
      MergeSummarises(s.unconsumed, s.pending.value, n);
    } else if s.waiter == None {
      OneSummarisesItself(n);
      assert s.unconsumed + [n] == [n];
    }
  }

  lemma StepKeepsLedger(s: State, e: Event)
    requires Control(s) && Ledger(s)
    ensures Ledger(Step(s, e))
  {
    if Enabled(s, e) && !s.closing {
      match e
      case Notify(n) => NotifyKeepsLedger(s, n);
      case Next(_, _, _, _) => NextKeepsLedger(s, e);
      case Close => assert s.unconsumed + [] == [] + s.unconsumed;
      case _ =>
    }
  }

  lemma NotifyKeepsLedger(s: State, n: Notification)
    requires Control(s) && Ledger(s) && !s.closing
    ensures Ledger(NotifyStep(s, n))
  {
    FlattenOneMore(s.consumed, Consumption([n], OutcomeOf(n)));
    assert s.seen == Flatten(s.consumed) + s.unconsumed;
    assert s.seen + [n] == Flatten(s.consumed) + (s.unconsumed + [n]);
  }

  lemma NextKeepsLedger(s: State, e: Event)
    requires Control(s) && Ledger(s) && e.Next? && !s.closing
    ensures Ledger(Step(s, e))
  {
    if s.pending.Some? {
      FlattenOneMore(s.consumed, Consumption(s.unconsumed, s.pending.value));
      assert s.seen == Flatten(s.consumed) + s.unconsumed;
    }
  }

  lemma StepKeepsPast(s: State, e: Event)
    requires Inv(s) && Past(s)
    ensures Past(Step(s, e))
  {
    if e.Notify? {
      OneSummarisesItself(e.notification);
    }
  }

  lemma {:induction false} RunKeepsInv(es: seq<Event>)
    ensures var s := Run(Init, es); Inv(s) && Ledger(s) && Past(s)
  {
    if es != [] {
      var s, e := Run(Init, es[..|es| - 1]), es[|es| - 1];
      RunKeepsInv(es[..|es| - 1]);
      StepKeepsInv(s, e);
      StepKeepsLedger(s, e);
      StepKeepsPast(s, e);
    }
  }

  // ----- Theorems over every run -----

  /** A claimed waiter and a pending outcome never coexist. */
  lemma {:induction false} WaiterExcludesPending(es: seq<Event>)
    ensures var s := Run(Init, es);
            !(s.waiter.Some? && s.pending.Some?) && (s.closing ==> s.waiter == None && s.pending == None)
  {
    RunKeepsInv(es);
  }

  /**
  Every outcome a task consumes, merged or delivered directly, is the summary of exactly the
  notifications since the last consumption. No notification is lost, repeated or reordered:
  those seen are the ones consumed, then the pending ones, then those a close dropped.
  */
  lemma {:induction false} ConsumedOutcomesSummarise(es: seq<Event>)
    ensures var s := Run(Init, es);
            && (forall i :: 0 <= i < |s.consumed| ==> Summarises(s.consumed[i].notifications, s.consumed[i].outcome))
            && s.seen == Flatten(s.consumed) + s.unconsumed + s.dropped
            && (!s.closing ==> s.dropped == [])
            && (s.pending.Some? <==> s.unconsumed != [])
            && (s.pending.Some? ==> Summarises(s.unconsumed, s.pending.value))
  {
    RunKeepsInv(es);
  }

  function Tasks(rs: seq<Resumption>): seq<Task> {
    seq(|rs|, i requires 0 <= i < |rs| => rs[i].task)
  }

  /** The suspended tasks are those resumed, in order, and then the one that waits. */
  predicate TasksMatch(s: State) {
    s.suspended == Tasks(s.resumed) + (if s.waiter.Some? then [s.waiter.value] else [])
  }

  lemma StepKeepsTasks(s: State, e: Event)
    requires TasksMatch(s)
    ensures TasksMatch(Step(s, e))
  {
    var t := Step(s, e);
    if t.resumed != s.resumed {
      var r := t.resumed[|s.resumed|];
      assert t.resumed == s.resumed + [r];
      assert Tasks(t.resumed) == Tasks(s.resumed) + [r.task];
    }
  }

  /** What one event does to the tasks: who is resumed by it, and with what. */
  lemma ResumedBy(s: State, e: Event)
    requires Control(s)
    ensures var t := Step(s, e);
            match e
            case Notify(n) =>
              t.resumed == s.resumed + (if s.waiter.Some? then [Delivered(s.waiter.value, OutcomeOf(n))] else [])
            case Next(_, _, _, _) => t.resumed == s.resumed
            case Stop(task) => t.resumed == s.resumed + (if s.waiter == Some(task) then [Cancelled(task)] else [])
            case Close => t.resumed == s.resumed + (if s.waiter.Some? then [Cancelled(s.waiter.value)] else [])
    ensures !e.Next? && (e.Stop? ==> s.waiter == Some(e.task)) && !s.closing ==> Step(s, e).waiter == None
  {
  }

  /**
  Every task that suspends in `next()` is resumed exactly once, in the order of suspension, and
  at most one waits. The next event that concerns the one that waits resumes it: a notification
  with its outcome, a stop or a close with `UV_ECANCELED`. Nobody waits on a closing source.
  */
  lemma {:induction false} WaitersResumeOnce(es: seq<Event>, e: Event)
    ensures var s := Run(Init, es);
            && s.suspended == Tasks(s.resumed) + (if s.waiter.Some? then [s.waiter.value] else [])
            && (s.closing ==> s.waiter == None)
            && (s.waiter.Some? ==>
                  var t := Step(s, e);
                  match e
                  case Notify(n) =>
                    t.waiter == None && t.resumed == s.resumed + [Delivered(s.waiter.value, OutcomeOf(n))]
                  case Next(_, _, _, _) => t == s
                  case Stop(task) => task == s.waiter.value ==>
                    t.waiter == None && t.resumed == s.resumed + [Cancelled(task)]
                  case Close => t.waiter == None && t.resumed == s.resumed + [Cancelled(s.waiter.value)])
  {
    RunKeepsInv(es);
    RunKeepsTasks(es);
    ResumedBy(Run(Init, es), e);
  }

  lemma {:induction false} RunKeepsTasks(es: seq<Event>)
    ensures TasksMatch(Run(Init, es))
  {
    if es != [] {
      RunKeepsTasks(es[..|es| - 1]);
      StepKeepsTasks(Run(Init, es[..|es| - 1]), es[|es| - 1]);
    }
  }

  // ----- The state object -----

  class Source {
    var closing: bool
    var waiter: Option<Task>
    var pending: bool
    var pendingFilename: Option<string>
    var pendingFlags: set<nat>
    var pendingStatus: int
    var pendingThrew: bool
    ghost var m: State

    /** The pending outcome that the five fields stand for. */
    function Held(): Option<Outcome>
      reads this
    {
      if pending then Some(Outcome(pendingFilename, pendingFlags, pendingStatus, pendingThrew)) else None
    }

    ghost predicate Valid()
      reads this
    {
      Inv(m) && m.closing == closing && m.waiter == waiter && m.pending == Held()
    }

    constructor ()
      ensures Valid() && m == Init
    {
      closing, waiter := false, None;
      pending, pendingFilename, pendingFlags, pendingStatus, pendingThrew := false, None, {}, 0, false;
      m := Init;
    }

    /** The slot is emptied before its callback runs. */
    method TakeWaiter() returns (task: Option<Task>)
      modifies this`waiter
      ensures task == old(waiter) && waiter == None
    {
      task := waiter;
      waiter := None;
    }

    /** `deliver_event`: the task it resumes, if one was waiting. */
    method DeliverEvent(n: Notification) returns (resumed: Option<Task>)
      requires Valid()
      modifies this
      ensures Valid() && m == Step(old(m), Notify(n))
      ensures resumed == old(waiter)
      ensures resumed.Some? ==> m.consumed == old(m.consumed) + [Consumption([n], OutcomeOf(n))]
                                && m.resumed == old(m.resumed) + [Delivered(resumed.value, OutcomeOf(n))]
      ensures old(waiter) == None && !closing ==> m.unconsumed == old(m.unconsumed) + [n] && pending
    {
      StepKeepsInv(m, Notify(n));
      m := Step(m, Notify(n));
      if closing {
        return None;
      }
      if pending && (pendingStatus < 0 || pendingThrew) {
        return None;
      }
      var filename, threw := Materialise(n);
      if waiter.Some? {
        resumed := TakeWaiter();
        return;
      }
      Absorb(n, filename, threw);
      resumed := None;
    }

    /** Copies the name that libuv lends for the time of the callback. */
    static method Materialise(n: Notification) returns (filename: Option<string>, threw: bool)
      ensures OutcomeOf(n) == Outcome(filename, n.flags, n.status, threw)
      ensures filename == (if n.status >= 0 && n.materialises then n.filename else None)
      ensures threw <==> n.status >= 0 && n.filename.Some? && !n.materialises
    {
      filename, threw := None, false;
      if n.status >= 0 && n.filename.Some? {
        if n.materialises {
          filename := n.filename;
        } else {
          threw := true;
        }
      }
    }

    /** Keeps an event for the next `next()`, alone or merged with what is pending. */
    method Absorb(n: Notification, filename: Option<string>, threw: bool)
      requires OutcomeOf(n) == Outcome(filename, n.flags, n.status, threw)
      requires Held().Some? ==> !Failure(Held().value)
      modifies this`pending, this`pendingFilename, this`pendingFlags, this`pendingStatus, this`pendingThrew
      ensures Held() == Some(if old(Held()) == None then OutcomeOf(n) else Merge(old(Held()).value, n))
    {
      if !pending || n.status < 0 || threw {
        pendingFilename, pendingFlags, pendingStatus, pendingThrew := filename, n.flags, n.status, threw;
        pending := true;
        return;
      }
      pendingFlags := pendingFlags + n.flags;
      if pendingFilename != filename {
        pendingFilename := None;
      }
    }

    /** Hands the pending outcome over and forgets it. */
    method TakePending() returns (outcome: Outcome)
      requires pending
      modifies this`pending, this`pendingFilename, this`pendingFlags, this`pendingStatus, this`pendingThrew
      ensures old(Held()) == Some(outcome) && Held() == None
    {
      outcome := Outcome(pendingFilename, pendingFlags, pendingStatus, pendingThrew);
      pendingFilename, pendingFlags, pendingStatus, pendingThrew := None, {}, 0, false;
      pending := false;
    }

    /** `next_awaiter::await_suspend`. */
    method AwaitNext(task: Task, sameLoop: bool, stopRequested: bool, registers: bool) returns (answer: Answer)
      requires Valid()
      modifies this
      ensures Valid() && m == Step(old(m), Next(task, sameLoop, stopRequested, registers))
      ensures answer == (if closing then Rejected(UV_EBADF) else if !sameLoop then WrongLoop
                         else if stopRequested then Rejected(UV_ECANCELED)
                         else if old(Held()).Some? then Consumed(old(Held()).value)
                         else if old(waiter).Some? then Rejected(UV_EBUSY)
                         else if !registers then Rejected(UV_ECANCELED) else Suspends)
      ensures answer.Consumed? ==> Summarises(old(m.unconsumed), answer.outcome) && !pending
      ensures waiter == (if answer.Suspends? then Some(task) else old(waiter))
      ensures !answer.Consumed? ==> Held() == old(Held())
    {
      StepKeepsInv(m, Next(task, sameLoop, stopRequested, registers));
      m := Step(m, Next(task, sameLoop, stopRequested, registers));
      if closing {
        return Rejected(UV_EBADF);
      }
      if !sameLoop {
        return WrongLoop;
      }
      if stopRequested {
        return Rejected(UV_ECANCELED);
      }
      if pending {
        var outcome := TakePending();
        return Consumed(outcome);
      }
      if waiter.Some? {
        return Rejected(UV_EBUSY);
      }
      waiter := Some(task);
      if !registers {
        waiter := None;
        return Rejected(UV_ECANCELED);
      }
      answer := Suspends;
    }

    /** `on_stop_requested` of the waiting task. */
    method CancelWaiter(task: Task) returns (resumed: Option<Task>)
      requires Valid() && waiter == Some(task)
      modifies this
      ensures Valid() && m == Step(old(m), Stop(task))
      ensures resumed == Some(task) && waiter == None && m.resumed == old(m.resumed) + [Cancelled(task)]
    {
      StepKeepsInv(m, Stop(task));
      m := Step(m, Stop(task));
      resumed := TakeWaiter();
    }

    /** `request_close`: the waiter is cancelled and the pending outcome discarded. */
    method RequestClose() returns (initiated: bool, cancelled: Option<Task>)
      requires Valid()
      modifies this
      ensures Valid() && m == Step(old(m), Close)
      ensures initiated <==> !old(closing)
      ensures closing && waiter == None && !pending
      ensures cancelled == old(waiter)
      ensures m.resumed == old(m.resumed) + (if cancelled.Some? then [Cancelled(cancelled.value)] else [])
    {
      StepKeepsInv(m, Close);
      m := Step(m, Close);
      initiated, cancelled := !closing, None;
      if initiated {
        closing := true;
        cancelled := TakeWaiter();
        pending := false;
        pendingFilename, pendingFlags, pendingStatus, pendingThrew := None, {}, 0, false;
      }
    }
  }
}
